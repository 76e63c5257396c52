/**
 * Password reset. Each forgot-password service keeps one outstanding code of
 * its own, drawn from the six-digit range; verifying compares the
 * entered text with that code and does not consume it; resetting looks the
 * user up by e-mail and writes the new password. The view model records the
 * e-mail on sending and the verification outcome, and refuses mismatched
 * passwords itself.
 */
module ResetPassword {
  import opened Wrappers
  import opened Text
  import opened Constants
  import opened Users
  import opened Persistence
  import opened UserRepositories

  /** The record a reset writes: the e-mail's first row with the new password. */
  function ResetRecord(users: seq<UserRecord>, email: string, newPassword: string): (r: Option<UserRecord>)
    ensures r.None? <==> FirstMatch(users, ByEmail(email)).None?
    ensures r.Some? ==> r.value.password == newPassword && r.value.email == email
    ensures r.Some? ==> r.value.(password := FirstMatch(users, ByEmail(email)).value.password)
                        == FirstMatch(users, ByEmail(email)).value
  {
    match FirstMatch(users, ByEmail(email))
    case None => None
    case Some(row) => Some(row.(password := newPassword))
  }

  /**
   * When the user the e-mail finds is also the one its user name finds, after the
   * reset that user name validates with the new password.
   */
  lemma ResetEnablesLogin(users: seq<UserRecord>, email: string, newPassword: string)
    requires ResetRecord(users, email, newPassword).Some?
    requires FirstMatch(users, ByUserName(FirstMatch(users, ByEmail(email)).value.userName))
             == FirstMatch(users, ByEmail(email))
    requires !IsNullOrWhiteSpace(FirstMatch(users, ByEmail(email)).value.userName)
    ensures CheckCredentials(ReplaceById(users, ResetRecord(users, email, newPassword).value),
                             FirstMatch(users, ByEmail(email)).value.userName, newPassword) == Success(true)
  {
    var row := FirstMatch(users, ByEmail(email)).value;
    LookupAfterUpdate(users, row.userName, ResetRecord(users, email, newPassword).value);
  }

  /** The service behind the reset flow; `currentCode` is the one code it remembers. */
  class ForgotPassService {
    const repository: UserRepository
    var currentCode: Option<nat>
    var codeEmail: string

    /** Every code the service holds was drawn from the six-digit range. */
    predicate Valid()
      reads this
    {
      currentCode.Some? ==> MinimumVerificationCodeValue <= currentCode.value <= MaximumVerificationCodeValue
    }

    constructor (repository: UserRepository)
      ensures this.repository == repository && currentCode == None && codeEmail == "" && Valid()
    {
      this.repository := repository;
      currentCode := None;
      codeEmail := "";
    }

    /** The entered text is the outstanding code, printed in decimal. */
    function CodeMatches(code: string): bool
      reads this
    {
      currentCode.Some? && code == NatToString(currentCode.value)
    }

    /** Draws a code in the six-digit range for `email`, replacing any earlier one, and reports success. */
    method SendVerificationCode(email: string) returns (sent: bool)
      modifies this`currentCode, this`codeEmail
      ensures sent && codeEmail == email && currentCode.Some? && Valid()
    {
      var code :| MinimumVerificationCodeValue <= code <= MaximumVerificationCodeValue;
      currentCode := Some(code);
      codeEmail := email;
      sent := true;
    }

    /** Compares the entered text with the outstanding code; nothing is consumed. */
    method VerifyCode(code: string) returns (ok: bool)
      requires Valid()
      ensures ok <==> CodeMatches(code)
      ensures ok ==> |code| == 6
    {
      if currentCode.Some? {
        ok := code == NatToString(currentCode.value);
        if ok {
          VerificationCodesHaveSixDigits(currentCode.value);
        }
      } else {
        ok := false;
      }
    }

    /** Writes the new password to the user the e-mail finds; false when there is none. */
    method ResetPassword(email: string, newPassword: string) returns (r: Result<bool, Error>)
      modifies repository.link`users, repository.link`log
      ensures r.Failure? <==> IsNullOrWhiteSpace(email)
      ensures r.Failure? ==> r.error == InvalidArgument("Invalid email.", "email") && unchanged(repository.link)
      ensures r.Success? ==> (r.value <==> ResetRecord(old(repository.link.users), email, newPassword).Some?)
      ensures r == Success(false) ==> unchanged(repository.link)
      ensures r == Success(true) ==>
                var rec := ResetRecord(old(repository.link.users), email, newPassword).value;
                repository.link.users == ReplaceById(old(repository.link.users), rec) &&
                repository.link.log == old(repository.link.log) + [UpdateUserWrite(rec)]
    {
      var user :- repository.GetUserByEmail(email);
      if user == null {
        return Success(false);
      }
      user.password := newPassword;
      var written := repository.UpdateUser(user);
      return Success(true);
    }
  }

  /** A code the service issued verifies, has six digits, and keeps verifying. */
  lemma IssuedCodeVerifies(service: ForgotPassService)
    requires service.currentCode.Some? && service.Valid()
    ensures service.CodeMatches(NatToString(service.currentCode.value))
    ensures |NatToString(service.currentCode.value)| == 6
  {
    VerificationCodesHaveSixDigits(service.currentCode.value);
  }

  /** The reset form's state. */
  class ResetPassViewModel {
    const service: ForgotPassService
    var email: string
    var verificationCode: string
    var newPassword: string
    var confirmPassword: string
    var statusMessage: string
    var isCodeVerified: bool

    /** The service's code, if any, lies in the six-digit range. */
    predicate Valid()
      reads this, service
    {
      service.Valid()
    }

    constructor (repository: UserRepository)
      ensures fresh(service) && service.repository == repository && service.currentCode == None
      ensures email == "" && verificationCode == "" && newPassword == "" && confirmPassword == ""
      ensures statusMessage == "" && !isCodeVerified && Valid()
    {
      service := new ForgotPassService(repository);
      email, verificationCode, newPassword, confirmPassword := "", "", "", "";
      statusMessage := "";
      isCodeVerified := false;
    }

    /** `new ResetPassViewModel(userRepository)`: a null repository throws. */
    static method Create(repository: UserRepository?) returns (r: Result<ResetPassViewModel, Error>)
      ensures repository == null <==> r.Failure?
      ensures r.Failure? ==> r.error == ArgumentNull("userRepository")
      ensures r.Success? ==> fresh(r.value) && fresh(r.value.service) && r.value.service.repository == repository
      ensures r.Success? ==> r.value.Valid() && r.value.service.currentCode == None
      ensures r.Success? ==> r.value.email == "" && r.value.verificationCode == "" && r.value.newPassword == ""
      ensures r.Success? ==> r.value.confirmPassword == "" && r.value.statusMessage == "" && !r.value.isCodeVerified
    {
      if repository == null {
        return Failure(ArgumentNull("userRepository"));
      }
      var vm := new ResetPassViewModel(repository);
      return Success(vm);
    }

    /** Records the e-mail, then asks the service for a code. */
    method SendVerificationCode(email: string) returns (sent: bool)
      modifies this`email, service`currentCode, service`codeEmail
      ensures this.email == email && sent
      ensures service.codeEmail == email && service.currentCode.Some? && Valid()
    {
      this.email := email;
      sent := service.SendVerificationCode(email);
    }

    /** Records and returns the service's verdict on the entered code. */
    method VerifyCode(code: string) returns (ok: bool)
      requires Valid()
      modifies this`isCodeVerified
      ensures ok == isCodeVerified && (ok <==> service.CodeMatches(code))
    {
      isCodeVerified := service.VerifyCode(code);
      ok := isCodeVerified;
    }

    /**
     * Mismatched form passwords fail with a fixed message and no service call; otherwise
     * the service resets the password of the recorded e-mail, verified code or not.
     */
    method ResetPassword(password: string) returns (r: Result<bool, Error>)
      modifies this`statusMessage, service.repository.link`users, service.repository.link`log
      ensures newPassword != confirmPassword ==>
                r == Success(false) && statusMessage == "Passwords don't match!" && unchanged(service.repository.link)
      ensures newPassword == confirmPassword ==> statusMessage == old(statusMessage)
      ensures newPassword == confirmPassword ==>
                (r.Failure? <==> IsNullOrWhiteSpace(email)) &&
                (r.Success? ==> (r.value <==> ResetRecord(old(service.repository.link.users), email, password).Some?))
      ensures newPassword == confirmPassword && r == Success(true) ==>
                var rec := ResetRecord(old(service.repository.link.users), email, password).value;
                service.repository.link.users == ReplaceById(old(service.repository.link.users), rec) &&
                service.repository.link.log == old(service.repository.link.log) + [UpdateUserWrite(rec)]
      ensures newPassword == confirmPassword && r != Success(true) ==> unchanged(service.repository.link)
    {
      if newPassword != confirmPassword {
        statusMessage := "Passwords don't match!";
        return Success(false);
      }
      r := service.ResetPassword(email, password);
    }
  }
}
