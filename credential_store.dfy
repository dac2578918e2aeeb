/** A consistent snapshot of the credential store and the lookups the engine makes on it.
    Every query of one engine call reads the same snapshot, which is what the shared
    reader lock of the source guarantees. */
module CredentialStore {
  import opened AuthTypes

  datatype AccountKey = AccountKey(accountName: string, domainName: string)
  datatype PasswordKey = PasswordKey(accountName: string, domainName: string, passIndex: uint32)
  datatype GroupKey = GroupKey(groupName: string, domainName: string)

  datatype Store = Store(
    passwords: map<PasswordKey, PasswordData>,
    confirmed: set<AccountKey>,
    disabled: set<AccountKey>,
    expirations: map<AccountKey, int>,
    directAttribs: map<AccountKey, seq<string>>,
    memberships: map<AccountKey, seq<string>>,
    groupAttribs: map<GroupKey, seq<string>>)

  /** `retrievePassword`: the record of a password slot, if there is one. */
  function RetrievePassword(s: Store, accountName: string, domainName: string, passIndex: uint32): Option<PasswordData>
  {
    var k := PasswordKey(accountName, domainName, passIndex);
    if k in s.passwords then Some(s.passwords[k]) else None
  }

  predicate IsAccountConfirmed(s: Store, accountName: string, domainName: string)
  {
    AccountKey(accountName, domainName) in s.confirmed
  }

  predicate IsAccountDisabled(s: Store, accountName: string, domainName: string)
  {
    AccountKey(accountName, domainName) in s.disabled
  }

  /** `accountExpirationDate`: epoch seconds, 0 when the account has no expiration. */
  function AccountExpirationDate(s: Store, accountName: string, domainName: string): int
  {
    var k := AccountKey(accountName, domainName);
    if k in s.expirations then s.expirations[k] else 0
  }

  function AccountDirectAttribs(s: Store, accountName: string, domainName: string): seq<string>
  {
    var k := AccountKey(accountName, domainName);
    if k in s.directAttribs then s.directAttribs[k] else []
  }

  function AccountGroups(s: Store, accountName: string, domainName: string): seq<string>
  {
    var k := AccountKey(accountName, domainName);
    if k in s.memberships then s.memberships[k] else []
  }

  function GroupAttribs(s: Store, groupName: string, domainName: string): seq<string>
  {
    var k := GroupKey(groupName, domainName);
    if k in s.groupAttribs then s.groupAttribs[k] else []
  }

  /** `accountValidateDirectAttribute`, answered from the same data as `accountDirectAttribs`. */
  predicate AccountValidateDirectAttribute(s: Store, accountName: string, attribName: string, domainName: string)
  {
    attribName in AccountDirectAttribs(s, accountName, domainName)
  }

  /** `groupValidateAttribute`, answered from the same data as `groupAttribs`. */
  predicate GroupValidateAttribute(s: Store, groupName: string, domainName: string, attribName: string)
  {
    attribName in GroupAttribs(s, groupName, domainName)
  }
}
