/** Value types shared by the decision engine: verdicts, modes and password records. */
module AuthTypes {

  /** The C++ `uint32_t` used for password slot indices. */
  newtype uint32 = x: int | 0 <= x < 0x1_0000_0000

  datatype Option<T> = None | Some(value: T)

  /** The verdict of one authentication attempt. */
  datatype AuthReason =
    | Authenticated
    | BadPassword
    | BadAccount
    | UnconfirmedAccount
    | DisabledAccount
    | ExpiredAccount

  /** The reasons that the engine's own gates produce (as opposed to the validator). */
  predicate IsGateReason(r: AuthReason)
  {
    r.BadAccount? || r.UnconfirmedAccount? || r.DisabledAccount? || r.ExpiredAccount?
  }

  /** How the presented password is compared: plain, or challenge/response with a salt. */
  datatype AuthMode = Plain | Cram

  /** How a password is stored. Only the "not found" sentinel matters to the engine;
      the remaining modes are told apart by an opaque code. */
  datatype PasswordMode = PassModeNotFound | PassModeStored(code: nat)

  /** A stored password record (secret material included). */
  datatype PasswordData = PasswordData(
    passwordMode: PasswordMode,
    hash: string,
    forceExpiration: bool,
    expiration: int)

  /** The non-secret projection of a password record. */
  datatype PasswordBasicData = PasswordBasicData(
    passwordMode: PasswordMode,
    forceExpiration: bool,
    expiration: int)

  /** A default-constructed password record. */
  const DefaultPasswordData := PasswordData(PassModeStored(0), "", false, 0)

  /** A default-constructed basic-data value. */
  const DefaultBasicData := PasswordBasicData(PassModeStored(0), false, 0)
}
