/** The attribute resolver: an account's effective attributes are its direct attributes
    together with the attributes of every group it belongs to (one level, no nesting). */
module AttributeResolver {
  import opened AuthTypes
  import opened CredentialStore

  const DefaultDomainName: string := "default"

  /** The domain `accountValidateAttribute` looks up: an empty name means "default". */
  function EffectiveDomain(domainName: string): (d: string)
    ensures d != ""
    ensures domainName != "" ==> d == domainName
    ensures domainName == "" ==> d == DefaultDomainName
  {
    if domainName == "" then DefaultDomainName else domainName
  }

  /** The set of the elements of a sequence. */
  function Elements(q: seq<string>): set<string>
  {
    set x | x in q
  }

  /** The attributes inherited through the listed groups. */
  function InheritedAttribs(s: Store, groups: seq<string>, domainName: string): (r: set<string>)
    ensures forall at :: at in r <==> exists g :: g in groups && at in GroupAttribs(s, g, domainName)
    decreases |groups|
  {
    if groups == [] then {}
    else
      var last := groups[|groups| - 1];
      InheritedAttribs(s, groups[..|groups| - 1], domainName) + Elements(GroupAttribs(s, last, domainName))
  }

  /** The effective attribute set of an account: what `accountUsableAttribs` returns. */
  function UsableAttribs(s: Store, accountName: string, domainName: string): (r: set<string>)
    ensures forall at :: at in r <==>
              at in AccountDirectAttribs(s, accountName, domainName) ||
              exists g :: g in AccountGroups(s, accountName, domainName) && at in GroupAttribs(s, g, domainName)
  {
    Elements(AccountDirectAttribs(s, accountName, domainName))
      + InheritedAttribs(s, AccountGroups(s, accountName, domainName), domainName)
  }

  /** The membership question `accountValidateAttribute` answers, once the domain is fixed. */
  predicate HasAttribute(s: Store, accountName: string, attribName: string, domainName: string)
  {
    AccountValidateDirectAttribute(s, accountName, attribName, domainName) ||
    exists g :: g in AccountGroups(s, accountName, domainName) && GroupValidateAttribute(s, g, domainName, attribName)
  }

  /** `accountUsableAttribs`: inserts every direct attribute, then every attribute of
      every group of the account, into one set. */
  method AccountUsableAttribs(s: Store, accountName: string, domainName: string) returns (x: set<string>)
    ensures x == UsableAttribs(s, accountName, domainName)
  {
    x := {};
    var direct := AccountDirectAttribs(s, accountName, domainName);
    for i := 0 to |direct|
      invariant x == Elements(direct[..i])
    {
      assert direct[..i + 1] == direct[..i] + [direct[i]];
      x := x + {direct[i]};
    }
    assert direct[..|direct|] == direct;
    var groups := AccountGroups(s, accountName, domainName);
    for i := 0 to |groups|
      invariant x == Elements(direct) + InheritedAttribs(s, groups[..i], domainName)
    {
      var attribs := GroupAttribs(s, groups[i], domainName);
      for j := 0 to |attribs|
        invariant x == Elements(direct) + InheritedAttribs(s, groups[..i], domainName) + Elements(attribs[..j])
      {
        assert attribs[..j + 1] == attribs[..j] + [attribs[j]];
        x := x + {attribs[j]};
      }
      assert attribs[..|attribs|] == attribs;
      assert groups[..i + 1][..i] == groups[..i];
    }
    assert groups[..|groups|] == groups;
  }

  /** `accountValidateAttribute`: substitutes "default" for an empty domain, answers true
      on a direct attribute, else asks the account's groups one by one and answers true at
      the first that has the attribute, and false once every group has said no.
      `asked` lists the groups asked, in order. */
  method AccountValidateAttribute(s: Store, accountName: string, attribName: string, domainName: string)
    returns (ok: bool, ghost asked: seq<string>)
    ensures ok <==> HasAttribute(s, accountName, attribName, EffectiveDomain(domainName))
    ensures ok <==> attribName in UsableAttribs(s, accountName, EffectiveDomain(domainName))
    ensures asked <= AccountGroups(s, accountName, EffectiveDomain(domainName))
    ensures AccountValidateDirectAttribute(s, accountName, attribName, EffectiveDomain(domainName)) ==> asked == []
    ensures forall k :: 0 <= k < |asked| - 1 ==>
              !GroupValidateAttribute(s, asked[k], EffectiveDomain(domainName), attribName)
    ensures !ok ==> asked == AccountGroups(s, accountName, EffectiveDomain(domainName))
    ensures ok && asked != [] ==> GroupValidateAttribute(s, asked[|asked| - 1], EffectiveDomain(domainName), attribName)
    ensures ok && !AccountValidateDirectAttribute(s, accountName, attribName, EffectiveDomain(domainName)) ==> asked != []
  {
    var domain := domainName;
    if domain == "" {
      domain := DefaultDomainName;
    }
    asked := [];
    if AccountValidateDirectAttribute(s, accountName, attribName, domain) {
      return true, asked;
    }
    var groups := AccountGroups(s, accountName, domain);
    for i := 0 to |groups|
      invariant asked == groups[..i]
      invariant forall k :: 0 <= k < i ==> !GroupValidateAttribute(s, groups[k], domain, attribName)
    {
      asked := asked + [groups[i]];
      if GroupValidateAttribute(s, groups[i], domain, attribName) {
        return true, asked;
      }
    }
    return false, asked;
  }

  /** The two entry points agree: the membership test holds exactly when the attribute is
      in the effective set computed for the same domain. */
  lemma HasAttributeIffUsable(s: Store, accountName: string, attribName: string, domainName: string)
    ensures HasAttribute(s, accountName, attribName, domainName) <==>
            attribName in UsableAttribs(s, accountName, domainName)
  {
  }

  /** Duplicates collapse: direct {"read"}, group G1 with {"write"} and group G2 with
      {"read", "admin"} give exactly {"read", "write", "admin"}. */
  lemma UsableAttribsCollapseDuplicates()
    ensures var s := Store(map[], {}, {}, map[],
                           map[AccountKey("alice", "default") := ["read"]],
                           map[AccountKey("alice", "default") := ["G1", "G2"]],
                           map[GroupKey("G1", "default") := ["write"], GroupKey("G2", "default") := ["read", "admin"]]);
            UsableAttribs(s, "alice", "default") == {"read", "write", "admin"}
  {
  }

  /** Only `accountValidateAttribute` substitutes "default" for an empty domain:
      `accountUsableAttribs` with an empty domain can see a different set. */
  lemma EmptyDomainIsNotDefaultForUsableAttribs()
    ensures exists s: Store :: UsableAttribs(s, "admin", "") != UsableAttribs(s, "admin", EffectiveDomain(""))
  {
    var s := Store(map[], {}, {}, map[], map[AccountKey("admin", DefaultDomainName) := ["read"]], map[], map[]);
    assert "read" in UsableAttribs(s, "admin", DefaultDomainName);
    assert "read" !in UsableAttribs(s, "admin", "");
  }
}
