/** The bootstrap initializer: on first run it asks the store for the default domain and
    for one superuser account "admin" protected by a random, forcibly expiring password. */
module Bootstrap {
  import opened AuthTypes
  import opened CredentialStore
  import Authentication

  /** `createRandomString(n)`: an oracle that answers a string of the requested length. */
  type RandomStringOracle = f: nat -> string | forall n: nat :: |f(n)| == n
    witness (n: nat) => seq(n, _ => 'x')

  /** `genRandomConfirmationToken`: a 64-character token drawn from the oracle. */
  function GenRandomConfirmationToken(createRandomString: RandomStringOracle): (token: string)
    ensures |token| == 64
  {
    createRandomString(64)
  }

  /** The arguments of one `accountAdd` call. */
  datatype AccountAddRequest = AccountAddRequest(
    accountName: string,
    passData: PasswordData,
    domainName: string,
    email: string,
    description: string,
    extraData: string,
    expiration: int,
    enabled: bool,
    confirmed: bool,
    superuser: bool)

  /** A call issued to the store, as the store sees it. */
  datatype StoreCall = DomainAddCall | AccountAddCall(request: AccountAddRequest)

  /** The account `initAccounts` requests, with the generated password `hash`. */
  predicate IsBootstrapSuperuser(req: AccountAddRequest)
  {
    req.accountName == "admin" && req.domainName == "" && req.email == "" && req.extraData == "" &&
    req.description == "Autogenerated Superuser Account" &&
    req.expiration == 0 && req.enabled && req.confirmed && req.superuser &&
    req.passData.forceExpiration && |req.passData.hash| == 16
  }

  /** The store as far as bootstrap sees it: it records the calls it receives and
      answers `accountAdd` by its own decision, which may depend on the calls already
      received (a store refuses an account it already holds). */
  class StoreHandle {
    var issued: seq<StoreCall>
    const admits: (seq<StoreCall>, AccountAddRequest) -> bool

    constructor (admits: (seq<StoreCall>, AccountAddRequest) -> bool)
      ensures issued == [] && this.admits == admits
    {
      issued := [];
      this.admits := admits;
    }

    /** `domainAdd()` with its default arguments; its result is not used by the engine. */
    method DomainAdd()
      modifies this
      ensures issued == old(issued) + [DomainAddCall]
    {
      issued := issued + [DomainAddCall];
    }

    /** `accountAdd(...)`: the store's answer is its own decision on the request,
        given the calls it received before. */
    method AccountAdd(req: AccountAddRequest) returns (ok: bool)
      modifies this
      ensures issued == old(issued) + [AccountAddCall(req)]
      ensures ok == admits(old(issued), req)
    {
      ok := admits(issued, req);
      issued := issued + [AccountAddCall(req)];
    }
  }

  /** `initAccounts`: one `domainAdd`, then one `accountAdd` of the bootstrap superuser,
      whose answer is returned. */
  method InitAccounts(store: StoreHandle, createRandomString: RandomStringOracle) returns (ok: bool)
    modifies store
    ensures |store.issued| == |old(store.issued)| + 2
    ensures store.issued[..|old(store.issued)|] == old(store.issued)
    ensures store.issued[|old(store.issued)|] == DomainAddCall
    ensures store.issued[|old(store.issued)| + 1].AccountAddCall?
    ensures var req := store.issued[|old(store.issued)| + 1].request;
            IsBootstrapSuperuser(req) &&
            req.passData == DefaultPasswordData.(forceExpiration := true, hash := createRandomString(16)) &&
            ok == store.admits(old(store.issued) + [DomainAddCall], req)
  {
    store.DomainAdd();
    var passData := DefaultPasswordData.(forceExpiration := true, hash := createRandomString(16));
    ok := store.AccountAdd(AccountAddRequest(
      "admin", passData, "", "", "Autogenerated Superuser Account", "", 0, true, true, true));
  }

  /** A store holds the requested account under the domain it resolved `req.domainName`
      to, in password slot `passIndex`, with the requested status. */
  predicate HoldsAccount(s: Store, req: AccountAddRequest, domainName: string, passIndex: uint32)
  {
    RetrievePassword(s, req.accountName, domainName, passIndex) == Some(req.passData) &&
    (IsAccountConfirmed(s, req.accountName, domainName) <==> req.confirmed) &&
    (IsAccountDisabled(s, req.accountName, domainName) <==> !req.enabled) &&
    AccountExpirationDate(s, req.accountName, domainName) == req.expiration
  }

  /** Bootstrap leaves a usable superuser: once the store holds the requested account,
      every attempt on it passes all status gates at any time and is decided by the
      validator on the generated password record. */
  lemma BootstrapSuperuserReachesValidator(s: Store, req: AccountAddRequest, domainName: string, passIndex: uint32,
                                           validator: Authentication.PasswordValidator, now: int,
                                           password: string, authMode: AuthMode, cramSalt: string)
    requires IsBootstrapSuperuser(req)
    requires HoldsAccount(s, req, domainName, passIndex)
    ensures var r := Authentication.Authenticate(s, validator, now, "admin", domainName, password, passIndex, authMode, cramSalt);
            r.queries == Authentication.GateOrder && r.reason == validator(req.passData, password, cramSalt, authMode)
  {
  }
}
