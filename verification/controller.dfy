/**
 * The controller's actions over the state they touch: the authenticated
 * user's collection of two-factor methods (as persisted) and the request
 * session. Each action's decision is specified by a function of
 * OtpVerification or Enrollment; the methods here carry out the writes.
 */
module TwoFactorController {
  import opened Wrappers
  import opened TwoFactorModel
  import opened OtpVerification
  import opened Enrollment

  class TwoFactorMethodController {
    /** `$user->twoFactorMethods`, in collection order. */
    var methods: seq<TwoFactorMethod>
    /** The session: `2fa_method` and the flashed `error`/`success` messages. */
    var session: Session
    /** The primary key the table assigns to the next row it saves. */
    var nextId: MethodId
    /** The table's default for `enabled`, which `store` does not set. */
    const enabledDefault: bool

    /** Primary keys are unique and all below the next one to be assigned. */
    ghost predicate Valid()
      reads this
    {
      UniqueIds(methods) && forall m :: m in methods ==> m.id < nextId
    }

    constructor (methods0: seq<TwoFactorMethod>, session0: Session, nextId0: MethodId, enabledDefault: bool)
      requires UniqueIds(methods0) && forall m :: m in methods0 ==> m.id < nextId0
      ensures Valid()
      ensures methods == methods0 && session == session0 && nextId == nextId0
      ensures this.enabledDefault == enabledDefault
    {
      methods := methods0;
      session := session0;
      nextId := nextId0;
      this.enabledDefault := enabledDefault;
    }

    /**
     * `verify_otp`: on a match, put the first matching method's id under
     * `2fa_method`; otherwise flash the one uniform error and leave
     * `2fa_method` as it was.
     */
    method VerifyOtp(otp: string, env: Oracles) returns (matched: Option<MethodId>)
      modifies this`session
      ensures matched == Decide(methods, otp, env)
      ensures matched.None? ==> session == old(session)[ErrorKey := Message(ErrOtpNotValid)]
      ensures matched.Some? ==> session == old(session)[MethodKey := MethodRef(matched.value)]
    {
      var correctOtps := Matching(Candidates(methods), otp, env, 0);
      if |correctOtps| == 0 {
        session := session[ErrorKey := Message(ErrOtpNotValid)];
        return None;
      }
      session := session[MethodKey := MethodRef(correctOtps[0].id)];
      matched := Some(correctOtps[0].id);
    }

    /** Saves a new row with the given credential columns and marks the session with it. */
    method Persist(name: string, google2faSecret: Option<string>, yubikeyOtp: Option<string>) returns (id: MethodId)
      requires Valid()
      modifies this`methods, this`nextId, this`session
      ensures Valid()
      ensures id == old(nextId) && nextId > id
      ensures methods == old(methods) + [TwoFactorMethod(id, name, enabledDefault, google2faSecret, yubikeyOtp)]
      ensures session == old(session)[SuccessKey := Message(MsgMethodAdded)][MethodKey := MethodRef(id)]
    {
      id := nextId;
      methods := methods + [TwoFactorMethod(id, name, enabledDefault, google2faSecret, yubikeyOtp)];
      nextId := nextId + 1;
      session := session[SuccessKey := Message(MsgMethodAdded)];
      session := session[MethodKey := MethodRef(id)];
    }

    /**
     * `store`: on success exactly one row is appended, holding only the
     * credential Enroll chose, and `2fa_method` names it; on failure no row
     * is saved, `2fa_method` is untouched and the last flashed error wins.
     */
    method Store(req: StoreRequest, env: Oracles) returns (added: Option<MethodId>)
      requires Valid()
      modifies this`methods, this`nextId, this`session
      ensures Valid()
      ensures Enroll(req, env).Enrolled? ==> added == Some(old(nextId))
      ensures Enroll(req, env).Enrolled? ==>
        methods == old(methods) + [TwoFactorMethod(old(nextId), req.name, enabledDefault,
                                                   Enroll(req, env).google2faSecret, Enroll(req, env).yubikeyOtp)]
      ensures Enroll(req, env).Enrolled? ==>
        session == old(session)[SuccessKey := Message(MsgMethodAdded)][MethodKey := MethodRef(old(nextId))]
      ensures Enroll(req, env).Rejected? ==> added == None && methods == old(methods) && nextId == old(nextId)
      ensures Enroll(req, env).Rejected? ==> session == old(session)[ErrorKey := Message(Enroll(req, env).error)]
    {
      match req.yubikeyOtp {
        case Some(otp) =>
          var verified := env.remoteVerify(otp, RemoteTimeout, 0);
          if verified.Threw? {
            if verified.message == ReplayedOtp {
              session := session[ErrorKey := Message(ErrOtpReplayed)];
            }
            session := session[ErrorKey := Message(ErrInvalidOtp)];
            added := None;
          } else {
            var prefix := env.parsePrefix(otp);
            if prefix.None? {
              // reading `['prefix']` of `false` raises, inside the same try block
              session := session[ErrorKey := Message(ErrInvalidOtp)];
              added := None;
            } else {
              var id := Persist(req.name, None, prefix);
              added := Some(id);
            }
          }
        case None =>
          if env.totpValid(req.twoFactorSecret, req.twoFactorCheck, EnrollWindow) {
            var id := Persist(req.name, Some(req.twoFactorSecret), None);
            added := Some(id);
          } else {
            session := session[ErrorKey := Message(ErrInvalidTotp)];
            added := None;
          }
      }
    }

    /**
     * `update` of the method with primary key `id`; `saved` is what
     * Eloquent's `update` returned. Only that row changes, and only in the
     * patched attributes; on success `2fa_method` names it.
     */
    method Update(id: MethodId, patch: Patch, saved: bool) returns (found: bool)
      requires Valid()
      modifies this`methods, this`session
      ensures Valid()
      ensures found <==> exists j :: 0 <= j < |old(methods)| && old(methods)[j].id == id
      ensures !found ==> methods == old(methods) && session == old(session)
      ensures found && saved ==> |methods| == |old(methods)|
      ensures found && saved ==> forall j :: 0 <= j < |methods| ==>
        methods[j] == if old(methods)[j].id == id then Patched(old(methods)[j], patch) else old(methods)[j]
      ensures found && saved ==>
        session == old(session)[SuccessKey := Message(MsgMethodChanged)][MethodKey := MethodRef(id)]
      ensures found && !saved ==> methods == old(methods)
      ensures found && !saved ==> session == old(session)[ErrorKey := Message(ErrChangeFailed)]
    {
      var index := IndexOf(methods, id);
      if index.None? {
        // route-model binding answers 404 before the action runs
        return false;
      }
      found := true;
      var i := index.value;
      if saved {
        methods := methods[i := Patched(methods[i], patch)];
        session := session[SuccessKey := Message(MsgMethodChanged)];
        session := session[MethodKey := MethodRef(methods[i].id)];
      } else {
        session := session[ErrorKey := Message(ErrChangeFailed)];
      }
    }

    /**
     * `destroy` of the method with primary key `id`; `deleted` is what
     * Eloquent's `delete` returned. Only that row goes, and `2fa_method`
     * is never touched, even when it names the deleted row.
     */
    method Destroy(id: MethodId, deleted: bool) returns (found: bool)
      requires Valid()
      modifies this`methods, this`session
      ensures Valid()
      ensures found <==> exists j :: 0 <= j < |old(methods)| && old(methods)[j].id == id
      ensures !found ==> methods == old(methods) && session == old(session)
      ensures found && deleted ==> |methods| == |old(methods)| - 1
      ensures found && deleted ==>
        methods == old(methods)[..IndexOf(old(methods), id).value] + old(methods)[IndexOf(old(methods), id).value + 1..]
      ensures found && deleted ==> forall m :: m in methods <==> m in old(methods) && m.id != id
      ensures found && deleted ==> session == old(session)[SuccessKey := Message(MsgMethodDeleted)]
      ensures found && !deleted ==> methods == old(methods)
      ensures found && !deleted ==> session == old(session)[ErrorKey := Message(ErrDeleteFailed)]
    {
      var index := IndexOf(methods, id);
      if index.None? {
        return false;
      }
      found := true;
      var i := index.value;
      if deleted {
        methods := methods[..i] + methods[i + 1..];
        session := session[SuccessKey := Message(MsgMethodDeleted)];
      } else {
        session := session[ErrorKey := Message(ErrDeleteFailed)];
      }
    }
  }
}
