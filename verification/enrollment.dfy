/**
 * What `store` decides for one enrollment request: the credential columns
 * of the row it persists, or the error it flashes instead.
 */
module Enrollment {
  import opened Wrappers
  import opened TwoFactorModel

  /**
   * The validated request data. A present `yubikeyOtp` selects YubiKey
   * enrollment; otherwise the freshly generated `twoFactorSecret` must be
   * proved with the code `twoFactorCheck`.
   */
  datatype StoreRequest = StoreRequest(
    name: string,
    yubikeyOtp: Option<string>,
    twoFactorSecret: string,
    twoFactorCheck: string)

  /** The credential columns of the new row, or the error message flashed last. */
  datatype EnrollOutcome =
    | Enrolled(google2faSecret: Option<string>, yubikeyOtp: Option<string>)
    | Rejected(error: string)

  /**
   * The outcome of `store`. On the YubiKey path the remote verifier is the
   * first (and only) remote call of the request; its return value is not
   * inspected, only whether it threw. A parse failure after a successful
   * remote check surfaces as an exception too, and is caught alike.
   */
  function Enroll(req: StoreRequest, env: Oracles): (e: EnrollOutcome)
    ensures e.Enrolled? ==> (e.google2faSecret.Some? <==> e.yubikeyOtp.None?)
    ensures e.Rejected? ==> e.error == (if req.yubikeyOtp.Some? then ErrInvalidOtp else ErrInvalidTotp)
  {
    match req.yubikeyOtp
    case Some(otp) =>
      if env.remoteVerify(otp, RemoteTimeout, 0).Threw? then Rejected(ErrInvalidOtp)
      else (
        match env.parsePrefix(otp)
        case None => Rejected(ErrInvalidOtp)
        case Some(prefix) => Enrolled(None, Some(prefix)))
    case None =>
      if env.totpValid(req.twoFactorSecret, req.twoFactorCheck, EnrollWindow)
      then Enrolled(Some(req.twoFactorSecret), None)
      else Rejected(ErrInvalidTotp)
  }

  /**
   * YubiKey enrollment succeeds exactly when the remote check does not throw
   * and the OTP parses; it stores the parsed prefix and no secret.
   */
  lemma YubikeyEnrollment(req: StoreRequest, env: Oracles, otp: string)
    requires req.yubikeyOtp == Some(otp)
    ensures Enroll(req, env).Enrolled?
        <==> env.remoteVerify(otp, RemoteTimeout, 0).Returned? && env.parsePrefix(otp).Some?
    ensures Enroll(req, env).Enrolled?
        ==> Enroll(req, env).yubikeyOtp == env.parsePrefix(otp) && Enroll(req, env).google2faSecret == None
  {
  }

  /** A replayed OTP is rejected with the generic message, not the replay-specific one. */
  lemma ReplayRejectedGenerically(req: StoreRequest, env: Oracles, otp: string)
    requires req.yubikeyOtp == Some(otp) && env.remoteVerify(otp, RemoteTimeout, 0) == Threw(ReplayedOtp)
    ensures Enroll(req, env) == Rejected(ErrInvalidOtp)
    ensures Enroll(req, env).error != ErrOtpReplayed
  {
  }

  /**
   * Time-based enrollment succeeds exactly when the check code is valid for
   * the secret within the wide window of 8 steps, and then stores that secret.
   */
  lemma TotpEnrollment(req: StoreRequest, env: Oracles)
    requires req.yubikeyOtp == None
    ensures Enroll(req, env).Enrolled? <==> env.totpValid(req.twoFactorSecret, req.twoFactorCheck, EnrollWindow)
    ensures Enroll(req, env).Enrolled?
        ==> Enroll(req, env) == Enrolled(Some(req.twoFactorSecret), None)
  {
  }

  /**
   * A row enrolled with a non-empty secret is later judged as a time-based
   * method (the login window of 2 steps), and never calls the remote verifier.
   */
  lemma EnrolledTotpUsesTotp(req: StoreRequest, env: Oracles, id: MethodId, enabled: bool)
    requires req.yubikeyOtp == None && req.twoFactorSecret != "" && Enroll(req, env).Enrolled?
    ensures UsesTotp(TwoFactorMethod(id, req.name, enabled, Enroll(req, env).google2faSecret, Enroll(req, env).yubikeyOtp))
  {
  }
}
