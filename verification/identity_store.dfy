/**
 * The site's identity store as the import sees it: user accounts, the
 * profile attached to an account, and group memberships. Entity storage,
 * `save()` and the group API are external services; here they are map and
 * set updates on one object, with the uniqueness the storage enforces.
 */
module IdentityStore {

  import opened Wrappers

  /** The user fields the import reads or writes. `pass` is the plain text handed to `setPassword`. */
  datatype Account = Account(
    name: string,
    mail: string,
    init: string,
    status: string,
    pass: string,
    timezone: string,
    langcode: string,
    preferredLangcode: string,
    preferredAdminLangcode: string)

  /** The three profile fields the import fills. */
  datatype Profile = Profile(firstName: string, lastName: string, organization: string)

  /** A stored status is the boolean flag, held as "0" (blocked) or "1" (active). */
  predicate StatusFlag(s: string)
  {
    s == "0" || s == "1"
  }

  /** What a store holds at one moment, so that two moments can be compared as values. */
  datatype Snapshot = Snapshot(
    accounts: map<string, Account>,
    names: map<string, string>,
    profiles: map<string, Profile>,
    members: set<(string, string)>)

  class Store {
    /** Accounts by e-mail address (what `user_load_by_mail` looks up). */
    var accounts: map<string, Account>
    /** Account e-mail by user name (what `user_load_by_name` looks up); names are unique. */
    var names: map<string, string>
    /** The profile attached to the account with that e-mail, when one exists. */
    var profiles: map<string, Profile>
    /** Pairs (group id, account e-mail). */
    var members: set<(string, string)>
    /** Whether the site attaches an empty profile to an account when it is first saved. */
    const attachesProfile: bool

    ghost predicate Valid()
      reads this
    {
      && (forall m :: m in accounts ==>
            && accounts[m].mail == m
            && StatusFlag(accounts[m].status)
            && accounts[m].name in names
            && names[accounts[m].name] == m)
      && (forall n :: n in names ==> names[n] in accounts && accounts[names[n]].name == n)
      && profiles.Keys <= accounts.Keys
      && (forall p :: p in members ==> p.1 in accounts)
    }

    function State(): Snapshot
      reads this
    {
      Snapshot(accounts, names, profiles, members)
    }

    constructor (attachesProfile: bool)
      ensures Valid()
      ensures accounts == map[] && names == map[] && profiles == map[] && members == {}
      ensures this.attachesProfile == attachesProfile
    {
      accounts, names, profiles, members := map[], map[], map[], {};
      this.attachesProfile := attachesProfile;
    }

    /** `user_load_by_mail`. */
    function LoadByMail(mail: string): (a: Option<Account>)
      reads this
      ensures a.Some? <==> mail in accounts
      ensures a.Some? ==> a.value == accounts[mail]
    {
      if mail in accounts then Some(accounts[mail]) else None
    }

    /** Saving a new account. The storage refuses a user name that is already taken. */
    method Insert(a: Account) returns (saved: bool)
      requires Valid()
      requires a.mail !in accounts && StatusFlag(a.status)
      modifies this
      ensures Valid()
      ensures saved <==> a.name !in old(names)
      ensures saved ==> accounts == old(accounts)[a.mail := a] && names == old(names)[a.name := a.mail]
      ensures saved ==> profiles == if attachesProfile then old(profiles)[a.mail := Profile("", "", "")] else old(profiles)
      ensures !saved ==> accounts == old(accounts) && names == old(names) && profiles == old(profiles)
      ensures members == old(members)
    {
      saved := a.name !in names;
      if saved {
        accounts := accounts[a.mail := a];
        names := names[a.name := a.mail];
        if attachesProfile {
          profiles := profiles[a.mail := Profile("", "", "")];
        }
      }
    }

    /** Saving an existing account; its e-mail and user name are kept. */
    method Update(a: Account)
      requires Valid()
      requires a.mail in accounts && accounts[a.mail].name == a.name && StatusFlag(a.status)
      modifies this
      ensures Valid()
      ensures accounts == old(accounts)[a.mail := a]
      ensures names == old(names) && profiles == old(profiles) && members == old(members)
    {
      accounts := accounts[a.mail := a];
    }

    /** Saving the profile attached to an account. */
    method SaveProfile(mail: string, p: Profile)
      requires Valid()
      requires mail in profiles
      modifies this
      ensures Valid()
      ensures profiles == old(profiles)[mail := p]
      ensures accounts == old(accounts) && names == old(names) && members == old(members)
    {
      profiles := profiles[mail := p];
    }

    /** `$group->addMember($account)`; adding a member twice is the same as adding it once. */
    method AddMember(group: string, mail: string)
      requires Valid()
      requires mail in accounts
      modifies this
      ensures Valid()
      ensures members == old(members) + {(group, mail)}
      ensures accounts == old(accounts) && names == old(names) && profiles == old(profiles)
    {
      members := members + {(group, mail)};
    }
  }

}
