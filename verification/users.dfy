/**
 * The user entity: its stored value (`UserRecord`), the in-memory object that
 * services and view models update in place (`User`), and the two computed
 * display texts. Times are whole seconds on one clock; "now" is a parameter.
 */
module Users {
  import opened Wrappers
  import opened Text

  /** The value of a user row: everything the Users table stores for one user. */
  datatype UserRecord = UserRecord(
    userId: int,
    userName: string,
    email: string,
    password: string,
    privacyStatus: bool,
    onlineStatus: bool,
    dateJoined: int,
    profileImage: string,
    totalPoints: int,
    coursesCompleted: int,
    quizzesCompleted: int,
    streak: int,
    lastActivityDate: Option<int>,
    accuracy: real)

  /** The property initialisers of `new User()`, created at time `now`. */
  function DefaultUser(now: int): (u: UserRecord)
    ensures u.userId == 0 && u.userName == "" && u.email == "" && u.password == ""
    ensures u.totalPoints == 0 && u.coursesCompleted == 0 && u.quizzesCompleted == 0 && u.streak == 0
    ensures !u.onlineStatus && !u.privacyStatus && u.lastActivityDate == None
    ensures u.profileImage == "default.jpg" && u.accuracy == 0.0 && u.dateJoined == now
  {
    UserRecord(0, "", "", "", false, false, now, "default.jpg", 0, 0, 0, 0, None, 0.0)
  }

  /** A user object; its fields are updated in place by the login, profile and reset flows. */
  class User {
    var userId: int
    var userName: string
    var email: string
    var password: string
    var privacyStatus: bool
    var onlineStatus: bool
    var dateJoined: int
    var profileImage: string
    var totalPoints: int
    var coursesCompleted: int
    var quizzesCompleted: int
    var streak: int
    var lastActivityDate: Option<int>
    var accuracy: real

    /** The current field values as one record. */
    function Snapshot(): UserRecord
      reads this
    {
      UserRecord(userId, userName, email, password, privacyStatus, onlineStatus, dateJoined,
                 profileImage, totalPoints, coursesCompleted, quizzesCompleted, streak,
                 lastActivityDate, accuracy)
    }

    /** `new User()` at time `now`. */
    constructor (now: int)
      ensures Snapshot() == DefaultUser(now)
    {
      userId, userName, email, password := 0, "", "", "";
      privacyStatus, onlineStatus, dateJoined, profileImage := false, false, now, "default.jpg";
      totalPoints, coursesCompleted, quizzesCompleted, streak := 0, 0, 0, 0;
      lastActivityDate, accuracy := None, 0.0;
    }

    /** A new object holding the values of one stored row (the row-to-user mapping). */
    constructor FromRecord(r: UserRecord)
      ensures Snapshot() == r
    {
      userId, userName, email, password := r.userId, r.userName, r.email, r.password;
      privacyStatus, onlineStatus, dateJoined := r.privacyStatus, r.onlineStatus, r.dateJoined;
      profileImage, totalPoints, coursesCompleted := r.profileImage, r.totalPoints, r.coursesCompleted;
      quizzesCompleted, streak := r.quizzesCompleted, r.streak;
      lastActivityDate, accuracy := r.lastActivityDate, r.accuracy;
    }
  }

  const SecondsPerMinute: int := 60
  const SecondsPerHour: int := 3600
  const SecondsPerDay: int := 86400

  /** The online-status text: "Active" exactly when the user is online. */
  function OnlineStatusText(u: UserRecord): (t: string)
    ensures t == "Active" <==> u.onlineStatus
    ensures t == "Active" || t == "Not Active"
  {
    if u.onlineStatus then "Active" else "Not Active"
  }

  /**
   * The last-seen text. `now - lastActivityDate` is the elapsed time; the
   * number printed is the floor of the elapsed minutes, hours or days.
   */
  function LastSeenText(u: UserRecord, now: int): (t: string)
    ensures t == "Active Now" <==> u.onlineStatus
    ensures !u.onlineStatus && u.lastActivityDate.None? ==> t == "Last seen a long time ago"
  {
    if u.onlineStatus then
      "Active Now"
    else if u.lastActivityDate.Some? then
      var elapsed := now - u.lastActivityDate.value;
      if elapsed < SecondsPerMinute then
        "Less than a minute ago"
      else if elapsed < SecondsPerHour then
        Counted(elapsed / SecondsPerMinute, " minutes ago")
      else if elapsed < SecondsPerDay then
        Counted(elapsed / SecondsPerHour, " hours ago")
      else
        Counted(elapsed / SecondsPerDay, " days ago")
    else
      "Last seen a long time ago"
  }

  /** A count followed by its unit; it starts with a digit, so it is none of the fixed texts. */
  function Counted(n: nat, suffix: string): (t: string)
    ensures |t| > 0 && IsDigit(t[0])
  {
    NatToString(n) + suffix
  }

  /** An offline user whose activity is under a minute old (or in the future) reads "Less than a minute ago". */
  lemma LastSeenUnderAMinute(u: UserRecord, now: int)
    requires !u.onlineStatus && u.lastActivityDate.Some?
    requires now - u.lastActivityDate.value < SecondsPerMinute
    ensures LastSeenText(u, now) == "Less than a minute ago"
  {
  }

  /** Between one minute and one hour the text gives the whole minutes m, 1 <= m <= 59. */
  lemma LastSeenMinutes(u: UserRecord, now: int, m: int)
    requires !u.onlineStatus && u.lastActivityDate.Some?
    requires SecondsPerMinute <= now - u.lastActivityDate.value < SecondsPerHour
    requires m * SecondsPerMinute <= now - u.lastActivityDate.value < (m + 1) * SecondsPerMinute
    ensures 1 <= m <= 59
    ensures LastSeenText(u, now) == NatToString(m) + " minutes ago"
  {
    FloorDivision(now - u.lastActivityDate.value, SecondsPerMinute, m);
  }

  /** Between one hour and one day the text gives the whole hours h, 1 <= h <= 23. */
  lemma LastSeenHours(u: UserRecord, now: int, h: int)
    requires !u.onlineStatus && u.lastActivityDate.Some?
    requires SecondsPerHour <= now - u.lastActivityDate.value < SecondsPerDay
    requires h * SecondsPerHour <= now - u.lastActivityDate.value < (h + 1) * SecondsPerHour
    ensures 1 <= h <= 23
    ensures LastSeenText(u, now) == NatToString(h) + " hours ago"
  {
    FloorDivision(now - u.lastActivityDate.value, SecondsPerHour, h);
  }

  /** From one day on the text gives the whole days d >= 1. */
  lemma LastSeenDays(u: UserRecord, now: int, d: int)
    requires !u.onlineStatus && u.lastActivityDate.Some?
    requires SecondsPerDay <= now - u.lastActivityDate.value
    requires d * SecondsPerDay <= now - u.lastActivityDate.value < (d + 1) * SecondsPerDay
    ensures d >= 1
    ensures LastSeenText(u, now) == NatToString(d) + " days ago"
  {
    FloorDivision(now - u.lastActivityDate.value, SecondsPerDay, d);
  }

  /** The q bracketing x between q*unit and (q+1)*unit is x / unit. */
  lemma FloorDivision(x: int, unit: int, q: int)
    requires unit > 0 && q * unit <= x < (q + 1) * unit
    ensures q == x / unit
  {
    var r := x / unit;
    assert r * unit <= x < (r + 1) * unit;
  }

  /** A new user reads "Not Active" and "Last seen a long time ago" at any later time. */
  lemma DefaultUserDisplay(created: int, now: int)
    ensures OnlineStatusText(DefaultUser(created)) == "Not Active"
    ensures LastSeenText(DefaultUser(created), now) == "Last seen a long time ago"
  {
  }
}
