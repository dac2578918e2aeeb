/** The authentication engine: the ordered status gate in front of the password validator,
    the expiration test and the protective basic-data accessor. */
module Authentication {
  import opened AuthTypes
  import opened CredentialStore

  /** `validatePassword(record, presentedPassword, cramSalt, authMode)`: an opaque backend. */
  type PasswordValidator = (PasswordData, string, string, AuthMode) -> AuthReason

  /** `getBasicData()` of a password record: an opaque backend. */
  type BasicDataProjection = PasswordData -> PasswordBasicData

  /** A backend query issued by `authenticate`, in the order it is issued. */
  datatype Query =
    | RetrievePasswordQuery
    | ConfirmedQuery
    | DisabledQuery
    | ExpirationQuery
    | ValidatorCall

  /** The full chain, in priority order; every attempt issues a prefix of it. */
  const GateOrder: seq<Query> :=
    [RetrievePasswordQuery, ConfirmedQuery, DisabledQuery, ExpirationQuery, ValidatorCall]

  /** The verdict of an attempt together with the queries it issued. */
  datatype Attempt = Attempt(reason: AuthReason, queries: seq<Query>)

  /** `isAccountExpired`, with the clock reading `now` passed in. */
  function IsAccountExpired(s: Store, accountName: string, domainName: string, now: int): (expired: bool)
    ensures AccountExpirationDate(s, accountName, domainName) == 0 ==> !expired
    ensures AccountExpirationDate(s, accountName, domainName) != 0 ==>
              (expired <==> AccountExpirationDate(s, accountName, domainName) < now)
  {
    var t := AccountExpirationDate(s, accountName, domainName);
    if t == 0 then false else t < now
  }

  /** An account without expiration date never expires, whatever the clock says. */
  lemma NeverExpires(s: Store, accountName: string, domainName: string)
    requires AccountExpirationDate(s, accountName, domainName) == 0
    ensures forall now :: !IsAccountExpired(s, accountName, domainName, now)
  {
  }

  /** Once expired, an account stays expired as time goes on; at the expiration
      instant itself it is not yet expired. */
  lemma ExpirationIsMonotone(s: Store, accountName: string, domainName: string, now: int, later: int)
    requires now <= later
    ensures IsAccountExpired(s, accountName, domainName, now) ==> IsAccountExpired(s, accountName, domainName, later)
    ensures !IsAccountExpired(s, accountName, domainName, AccountExpirationDate(s, accountName, domainName))
  {
  }

  /** `authenticate`: existence, then confirmation, then disabled, then expiration,
      and only then the validator, whose verdict is returned unchanged. */
  function Authenticate(s: Store, validator: PasswordValidator, now: int,
                        accountName: string, domainName: string, password: string,
                        passIndex: uint32, authMode: AuthMode, cramSalt: string): (r: Attempt)
    ensures 1 <= |r.queries| <= |GateOrder| && r.queries == GateOrder[..|r.queries|]
    ensures RetrievePassword(s, accountName, domainName, passIndex).None? <==>
              r == Attempt(BadAccount, [RetrievePasswordQuery])
    ensures RetrievePassword(s, accountName, domainName, passIndex).Some? &&
            !IsAccountConfirmed(s, accountName, domainName) ==>
              r == Attempt(UnconfirmedAccount, GateOrder[..2])
    ensures RetrievePassword(s, accountName, domainName, passIndex).Some? &&
            IsAccountConfirmed(s, accountName, domainName) &&
            IsAccountDisabled(s, accountName, domainName) ==>
              r == Attempt(DisabledAccount, GateOrder[..3])
    ensures RetrievePassword(s, accountName, domainName, passIndex).Some? &&
            IsAccountConfirmed(s, accountName, domainName) &&
            !IsAccountDisabled(s, accountName, domainName) &&
            IsAccountExpired(s, accountName, domainName, now) ==>
              r == Attempt(ExpiredAccount, GateOrder[..4])
    ensures ValidatorCall in r.queries <==>
              RetrievePassword(s, accountName, domainName, passIndex).Some? &&
              IsAccountConfirmed(s, accountName, domainName) &&
              !IsAccountDisabled(s, accountName, domainName) &&
              !IsAccountExpired(s, accountName, domainName, now)
    ensures ValidatorCall in r.queries ==>
              r.reason == validator(RetrievePassword(s, accountName, domainName, passIndex).value,
                                    password, cramSalt, authMode)
  {
    match RetrievePassword(s, accountName, domainName, passIndex)
    case None => Attempt(BadAccount, [RetrievePasswordQuery])
    case Some(pData) =>
      if !IsAccountConfirmed(s, accountName, domainName) then
        Attempt(UnconfirmedAccount, [RetrievePasswordQuery, ConfirmedQuery])
      else if IsAccountDisabled(s, accountName, domainName) then
        Attempt(DisabledAccount, [RetrievePasswordQuery, ConfirmedQuery, DisabledQuery])
      else if IsAccountExpired(s, accountName, domainName, now) then
        Attempt(ExpiredAccount, [RetrievePasswordQuery, ConfirmedQuery, DisabledQuery, ExpirationQuery])
      else
        Attempt(validator(pData, password, cramSalt, authMode), GateOrder)
  }

  /** The validator never produces one of the gate reasons (it answers match or mismatch). */
  ghost predicate AnswersOnlyPasswordReasons(validator: PasswordValidator)
  {
    forall pd, pw, salt, mode :: !IsGateReason(validator(pd, pw, salt, mode))
  }

  /** With a validator that only answers match or mismatch, each gate reason identifies
      exactly one gate: BAD_ACCOUNT exactly when the slot has no record, and so on. */
  lemma GateReasonsAreExact(s: Store, validator: PasswordValidator, now: int,
                            accountName: string, domainName: string, password: string,
                            passIndex: uint32, authMode: AuthMode, cramSalt: string)
    requires AnswersOnlyPasswordReasons(validator)
    ensures var r := Authenticate(s, validator, now, accountName, domainName, password, passIndex, authMode, cramSalt);
            var found := RetrievePassword(s, accountName, domainName, passIndex).Some?;
            var confirmed := IsAccountConfirmed(s, accountName, domainName);
            var disabled := IsAccountDisabled(s, accountName, domainName);
            (r.reason == BadAccount <==> !found) &&
            (r.reason == UnconfirmedAccount <==> found && !confirmed) &&
            (r.reason == DisabledAccount <==> found && confirmed && disabled) &&
            (r.reason == ExpiredAccount <==>
               found && confirmed && !disabled && IsAccountExpired(s, accountName, domainName, now))
  {
  }

  /** Two stores that agree on everything the attempt looked at give the same attempt:
      a status the gate chain did not reach cannot influence the verdict. */
  lemma UnreachedStateIsIrrelevant(s1: Store, s2: Store, v1: PasswordValidator, v2: PasswordValidator,
                                   now1: int, now2: int, pw1: string, pw2: string,
                                   accountName: string, domainName: string,
                                   passIndex: uint32, authMode: AuthMode, cramSalt: string)
    requires RetrievePassword(s1, accountName, domainName, passIndex) == RetrievePassword(s2, accountName, domainName, passIndex)
    requires var r1 := Authenticate(s1, v1, now1, accountName, domainName, pw1, passIndex, authMode, cramSalt);
             (ConfirmedQuery in r1.queries ==>
                IsAccountConfirmed(s1, accountName, domainName) == IsAccountConfirmed(s2, accountName, domainName)) &&
             (DisabledQuery in r1.queries ==>
                IsAccountDisabled(s1, accountName, domainName) == IsAccountDisabled(s2, accountName, domainName)) &&
             (ExpirationQuery in r1.queries ==>
                IsAccountExpired(s1, accountName, domainName, now1) == IsAccountExpired(s2, accountName, domainName, now2)) &&
             ValidatorCall !in r1.queries
    ensures Authenticate(s1, v1, now1, accountName, domainName, pw1, passIndex, authMode, cramSalt)
         == Authenticate(s2, v2, now2, accountName, domainName, pw2, passIndex, authMode, cramSalt)
  {
  }

  /** The result of `accountPasswordBasicData`: the projection and the found flag. */
  datatype BasicDataLookup = BasicDataLookup(data: PasswordBasicData, found: bool)

  /** `accountPasswordBasicData`: the non-secret projection of the slot's record, or a
      value tagged "not found" when there is no record. */
  function AccountPasswordBasicData(s: Store, getBasicData: BasicDataProjection,
                                    accountName: string, passIndex: uint32, domainName: string): (r: BasicDataLookup)
    ensures r.found <==> PasswordKey(accountName, domainName, passIndex) in s.passwords
    ensures !r.found ==> r.data.passwordMode == PassModeNotFound && r.data == DefaultBasicData.(passwordMode := PassModeNotFound)
    ensures r.found ==> r.data == getBasicData(s.passwords[PasswordKey(accountName, domainName, passIndex)])
  {
    match RetrievePassword(s, accountName, domainName, passIndex)
    case None => BasicDataLookup(DefaultBasicData.(passwordMode := PassModeNotFound), false)
    case Some(pd) => BasicDataLookup(getBasicData(pd), true)
  }

  /** The accessor and the engine agree on existence: a slot reported "not found" is
      exactly a slot on which `authenticate` answers BAD_ACCOUNT at its first query. */
  lemma BasicDataAgreesWithAuthenticate(s: Store, getBasicData: BasicDataProjection, validator: PasswordValidator,
                                        now: int, accountName: string, domainName: string, password: string,
                                        passIndex: uint32, authMode: AuthMode, cramSalt: string)
    ensures !AccountPasswordBasicData(s, getBasicData, accountName, passIndex, domainName).found <==>
            Authenticate(s, validator, now, accountName, domainName, password, passIndex, authMode, cramSalt).queries
              == [RetrievePasswordQuery]
  {
  }
}
