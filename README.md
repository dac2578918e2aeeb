# cxAuth decision engine, modelled in Dafny

This project models the decision core of `IAuth` in cxAuth's `libcx_auth`. It has four parts:

- **Authentication gate.** `authenticate` looks up the password record of an (account, domain, password slot). It then checks, in order, that the account is confirmed, not disabled and not expired. Only then does it ask the password validator.
- **Expiry test.** `isAccountExpired` compares the stored expiration timestamp with the clock. A timestamp of 0 means "never expires".
- **Attribute resolver.** `accountUsableAttribs` returns the union of an account's direct attributes and the attributes of each of its groups. `accountValidateAttribute` asks whether one attribute is in that union, after replacing an empty domain with `"default"`.
- **Bootstrap and helpers.** `initAccounts` creates the default domain and an `admin` superuser. `accountPasswordBasicData` returns only the non-secret part of a password record. `genRandomConfirmationToken` returns a 64-character random token.

Files and modules:

- `auth_types.dfy` (`AuthTypes`): verdicts (`AuthReason`), authentication and password modes, password records and their basic data, and `uint32` for slot indices.
- `credential_store.dfy` (`CredentialStore`): an immutable snapshot of the store, plus the backend lookups the engine makes (`retrievePassword`, `isAccountConfirmed`, `accountGroups`, …). Each engine call reads one snapshot. For `authenticate`, `accountUsableAttribs` and `accountValidateAttribute` this is what the source's shared reader lock guarantees (cxAuth/libcx_auth/src/iauth.cpp lines 38, 83 and 100). `accountPasswordBasicData` and `isAccountExpired` take no lock, but each reads a single value, so one snapshot describes them too.
- `authentication.dfy` (`Authentication`): `authenticate`, `isAccountExpired` and `accountPasswordBasicData`. These are pure functions over a snapshot.
  - `Authenticate` returns the verdict together with the list of backend queries it made. This makes short-circuiting visible: a gate that was not reached does not appear in the list.
- `attribute_resolver.dfy` (`AttributeResolver`): the two resolver loops, written as methods with loop invariants. They are proved equal to set and exists specifications.
- `bootstrap.dfy` (`Bootstrap`): `initAccounts`, written against a store handle. The handle logs each call it receives. It answers `accountAdd` with its own decision, which may depend on the calls it received before.

Backends the source calls through virtual methods are parameters of the model:

- the password validator (`validatePassword`) and the basic-data projection (`getBasicData`) are uninterpreted function parameters;
- the clock (`time(nullptr)`) is the parameter `now`;
- `createRandomString` is an oracle that returns a string of the requested length.

`accountValidateDirectAttribute` and `groupValidateAttribute` read the same snapshot data as `accountDirectAttribs` and `groupAttribs`. This is what lets the model prove that the two resolver entry points agree.

Source behaviours worth knowing:

- **Empty domain.** Only `accountValidateAttribute` replaces an empty domain with `"default"`; `accountUsableAttribs` uses the domain it is given. `EmptyDomainIsNotDefaultForUsableAttribs` exhibits a store where the two readings differ.
- **BAD_ACCOUNT.** `authenticate` returns `validatePassword`'s answer unchanged. "BAD_ACCOUNT exactly when the slot has no record" therefore needs a validator that never returns BAD_ACCOUNT. `GateReasonsAreExact` assumes more: a validator that never returns any of the four gate reasons. This stronger hypothesis is needed for its four iffs to hold together. Without the hypothesis, the exact statement is about the query list: `Authenticate`'s contract says the slot has no record exactly when the attempt is `BAD_ACCOUNT` with only the lookup made.

## Model

| member | source | states |
|---|---|---|
| `Authentication.IsAccountExpired` | cxAuth/libcx_auth/src/iauth.cpp:73-78 | an expiration of 0 is never expired; any other expiration is expired iff it is strictly before the current time |
| `Authentication.NeverExpires` | cxAuth/libcx_auth/src/iauth.cpp:76 | an account with expiration 0 is not expired at any clock reading |
| `Authentication.ExpirationIsMonotone` | cxAuth/libcx_auth/src/iauth.cpp:77 | being expired persists as the clock advances; at the instant equal to the expiration the account is not yet expired |
| `Authentication.Authenticate` | cxAuth/libcx_auth/src/iauth.cpp:34-50 | the queries made are always a prefix of lookup → confirmed → disabled → expiration → validator; no record gives BAD_ACCOUNT after the lookup alone (and only then); unconfirmed gives UNCONFIRMED whatever the other flags and the password; confirmed and disabled gives DISABLED whatever the expiration; then expired gives EXPIRED; the validator is called iff every gate passed, and its verdict is returned unchanged |
| `Authentication.GateReasonsAreExact` | cxAuth/libcx_auth/src/iauth.cpp:39-48 | if the validator only answers match or mismatch, each gate reason happens exactly when its gate is the first to fail (BAD_ACCOUNT iff no record, and so on) |
| `Authentication.UnreachedStateIsIrrelevant` | cxAuth/libcx_auth/src/iauth.cpp:40-48 | two attempts that see the same record and agree on every status the chain actually queried, where the validator was not reached, give the same verdict and queries, whatever the other status, clock, password or validator |
| `Authentication.AccountPasswordBasicData` | cxAuth/libcx_auth/src/iauth.cpp:58-71 | the found flag equals the lookup's outcome; when not found, the value returned is the default value tagged PASS_MODE_NOTFOUND; when found, it is the record's basic-data projection |
| `Authentication.BasicDataAgreesWithAuthenticate` | cxAuth/libcx_auth/src/iauth.cpp:39-64 | the accessor reports "not found" exactly when `authenticate` stops after its password lookup |
| `AttributeResolver.EffectiveDomain` | cxAuth/libcx_auth/src/iauth.cpp:99 | the domain looked up is never empty: an empty name becomes "default", any other name is kept |
| `AttributeResolver.InheritedAttribs` | cxAuth/libcx_auth/src/iauth.cpp:88-93 | an attribute is inherited iff some listed group has it |
| `AttributeResolver.UsableAttribs` | cxAuth/libcx_auth/src/iauth.cpp:80-95 | an attribute is usable iff it is a direct attribute of the account or an attribute of some group of the account |
| `AttributeResolver.AccountUsableAttribs` | cxAuth/libcx_auth/src/iauth.cpp:80-95 | the set built by the nested insertion loops is exactly the effective set: direct attributes ∪ every group's attributes |
| `AttributeResolver.AccountValidateAttribute` | cxAuth/libcx_auth/src/iauth.cpp:97-113 | after replacing an empty domain with "default": true iff the attribute is direct or held by some group of the account, equivalently iff it is in the effective set for that domain; groups are asked in order; none is asked when the direct check succeeds; when the direct check fails, a true answer comes from the last group asked, and every group asked before it said no, so the scan stops at the first group that has the attribute; false is returned only after every group was asked |
| `AttributeResolver.HasAttributeIffUsable` | cxAuth/libcx_auth/src/iauth.cpp:80-113 | for one domain, the membership test and the effective set agree |
| `AttributeResolver.UsableAttribsCollapseDuplicates` | cxAuth/libcx_auth/src/iauth.cpp:80-95 | direct {read}, groups {write} and {read, admin} give exactly {read, write, admin} |
| `AttributeResolver.EmptyDomainIsNotDefaultForUsableAttribs` | cxAuth/libcx_auth/src/iauth.cpp:80-99 | some store makes `accountUsableAttribs` with an empty domain differ from the "default" domain that `accountValidateAttribute` would use |
| `Bootstrap.GenRandomConfirmationToken` | cxAuth/libcx_auth/src/iauth.cpp:52-55 | the confirmation token has 64 characters |
| `Bootstrap.StoreHandle.DomainAdd` | cxAuth/libcx_auth/src/iauth.cpp:15 | the store receives exactly one domain-creation call |
| `Bootstrap.StoreHandle.AccountAdd` | cxAuth/libcx_auth/src/iauth.cpp:21-31 | the store receives exactly this account-creation request, and the answer is the store's decision on it given the calls it received before |
| `Bootstrap.InitAccounts` | cxAuth/libcx_auth/src/iauth.cpp:12-32 | exactly two calls are issued, a domain creation and then an account creation; the account is "admin" with empty domain, email and extra data, the fixed description, expiration 0, enabled, confirmed and superuser; its password record is forced to expire and holds the 16-character oracle string; the result is the store's answer to that request, given the calls before it |
| `Bootstrap.BootstrapSuperuserReachesValidator` | cxAuth/libcx_auth/src/iauth.cpp:12-50 | once the store holds the bootstrap account, every attempt on it passes all gates at any time and is decided by the validator on the generated record |

## Left out

- Reader locking (`Lock_Mutex_RD`): concurrency plumbing. Each call reads one immutable store snapshot instead.
- The clock (`time(nullptr)`): the current time is the parameter `now`.
- Randomness of `createRandomString`: an oracle of the requested length. Unpredictability and the "two tokens differ" property cannot be stated about a deterministic model.
- Internals of `validatePassword`, `getBasicData` and hashing: uninterpreted function parameters.
- The store's CRUD and persistence, and how `domainAdd`/`accountAdd` resolve the empty domain name. `StoreHandle` only logs calls and answers `accountAdd` with its own decision. `BootstrapSuperuserReachesValidator` takes the resolved domain as a parameter.
- How the lookup backends (`accountDirectAttribs`, `accountGroups`, `groupAttribs`, `accountValidateDirectAttribute`, `groupValidateAttribute`) treat an empty domain name: they are modelled as not resolving `""` themselves, so `""` and `"default"` are separate keys. `EmptyDomainIsNotDefaultForUsableAttribs` relies on this.
- The trailing `false` argument of `accountDirectAttribs`, `accountGroups`, `groupAttribs` and `groupValidateAttribute`: it concerns the store's own locking, which is not modelled.
- The empty constructor and destructor of `IAuth`.
- Field defaults of `sPasswordData` and `sPasswordBasicData`: the header defining them (iauth.h) is not part of this model. `DefaultPasswordData` and `DefaultBasicData` stand for the default-constructed values, and the set of password modes other than PASS_MODE_NOTFOUND is an opaque code.
- `AuthReason` values other than the six the engine deals with: the enum's definition is not part of this model. A validator may return any of the six.
