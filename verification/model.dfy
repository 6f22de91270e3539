/**
 * The data the two-factor controller reads and writes: rows of the
 * `two_factor_methods` table, the request session, and the library
 * primitives it calls, which are given to the model as oracles.
 */
module TwoFactorModel {
  import opened Wrappers

  /** Primary key of a `two_factor_methods` row. */
  type MethodId = int

  /**
   * One enrolled second factor. Exactly which credential column is set is
   * not enforced by the table: a time-based method has `google2faSecret`,
   * a YubiKey has `yubikeyOtp`, which holds the token's public prefix.
   */
  datatype TwoFactorMethod = TwoFactorMethod(
    id: MethodId,
    name: string,
    enabled: bool,
    google2faSecret: Option<string>,
    yubikeyOtp: Option<string>)

  /** PHP's loose `$column == null` on a nullable string column: null and "" both compare equal to null. */
  predicate IsLooseNull(column: Option<string>)
    ensures IsLooseNull(column) <==> column == None || column == Some("")
  {
    column.None? || column.value == ""
  }

  /** PHP's loose `$column == $s` between a nullable column and a (non-numeric) string: null equals "". */
  predicate LooseEquals(column: Option<string>, s: string)
    ensures LooseEquals(column, s) <==> column == Some(s) || (column == None && s == "")
  {
    match column
    case None => s == ""
    case Some(c) => c == s
  }

  /** Whether verification treats `m` as a time-based method (`google2fa_secret != null`). */
  predicate UsesTotp(m: TwoFactorMethod)
    ensures UsesTotp(m) <==> m.google2faSecret.Some? && m.google2faSecret.value != ""
  {
    !IsLooseNull(m.google2faSecret)
  }

  /** Ids are primary keys: no two rows share one. */
  predicate UniqueIds(ms: seq<TwoFactorMethod>) {
    forall i, j :: 0 <= i < j < |ms| ==> ms[i].id != ms[j].id
  }

  /** The position of the row with primary key `id`, if the collection holds one. */
  function IndexOf(ms: seq<TwoFactorMethod>, id: MethodId): (r: Option<nat>)
    ensures r.Some? ==> r.value < |ms| && ms[r.value].id == id
    ensures r.Some? ==> forall j :: 0 <= j < r.value ==> ms[j].id != id
    ensures r.None? <==> forall j :: 0 <= j < |ms| ==> ms[j].id != id
  {
    if ms == [] then None
    else if ms[0].id == id then Some(0)
    else match IndexOf(ms[1..], id)
      case None => None
      case Some(k) => Some(k + 1)
  }

  /** The validated attributes an update may change: a new label and/or the enabled flag. */
  datatype Patch = Patch(name: Option<string>, enabled: Option<bool>)

  /** The row after Eloquent's `fill($data)`: only the attributes present in the patch change. */
  function Patched(m: TwoFactorMethod, p: Patch): (r: TwoFactorMethod)
    ensures r.id == m.id
    ensures r.google2faSecret == m.google2faSecret && r.yubikeyOtp == m.yubikeyOtp
    ensures p.name.Some? ==> r.name == p.name.value
    ensures p.name.None? ==> r.name == m.name
    ensures p.enabled.Some? ==> r.enabled == p.enabled.value
    ensures p.enabled.None? ==> r.enabled == m.enabled
  {
    m.(name := p.name.GetOr(m.name), enabled := p.enabled.GetOr(m.enabled))
  }

  /** A session entry: a method id stored with `put`, or a flashed message. */
  datatype SessionValue = MethodRef(id: MethodId) | Message(text: string)

  type Session = map<string, SessionValue>

  const MethodKey: string := "2fa_method"
  const ErrorKey: string := "error"
  const SuccessKey: string := "success"

  const ErrOtpNotValid: string := "This OTP is not valid."
  const MsgMethodAdded: string := "Successfully added a new 2FA method"
  const ErrOtpReplayed: string := "The supplied OTP has been used before."
  const ErrInvalidOtp: string := "Invalid OTP supplied. Please try again!"
  const ErrInvalidTotp: string := "Invalid 2FA code supplied. Please try again!"
  const MsgMethodChanged: string := "Successfully changed this 2FA method."
  const ErrChangeFailed: string := "Something went wrong when changing this 2FA method."
  const MsgMethodDeleted: string := "Successfully deleted this 2FA method."
  const ErrDeleteFailed: string := "Something went wrong whilst deleting this 2FA method."

  /** The message of the exception the YubiKey verifier throws for an OTP it has seen before. */
  const ReplayedOtp: string := "REPLAYED_OTP"

  /** TOTP skew window (in 30-second steps) when logging in, and when proving a fresh secret at enrollment. */
  const VerifyWindow: nat := 2
  const EnrollWindow: nat := 8

  /** Timeout, in seconds, handed to every remote YubiKey verification. */
  const RemoteTimeout: nat := 2

  /** What a call of the remote YubiKey verifier did: returned a value, or threw with a message. */
  datatype RemoteResult = Returned(ok: bool) | Threw(message: string)

  /**
   * The library code the controller calls, fixed for one request:
   * - `totpValid(secret, code, window)`: Google2FA's `verifyKey` at the request's clock;
   * - `parsePrefix(otp)`: the `prefix` of `Yubikey::parsePasswordOTP`, None when it returns false;
   * - `remoteVerify(otp, timeout, n)`: the outcome of `Yubikey::verify` when it is the n-th
   *   (from 0) remote call of the request; the service's replay counter makes later calls differ.
   */
  datatype Oracles = Oracles(
    totpValid: (string, string, nat) -> bool,
    parsePrefix: string -> Option<string>,
    remoteVerify: (string, nat, nat) -> RemoteResult)
}
