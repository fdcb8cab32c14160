/** The domain service of the issuing service, independent of HTTP:
    registration (duplicate check, then one creation) and authentication
    (resolve, then password, then active flag), plus the profile use case that
    turns a missing user into an error. */
module Services {
  import opened Wrappers
  import opened Accounts
  import opened Repositories

  /** What registration hands back: the domain fields and the id of the stored
      user the view mints its tokens for. */
  datatype UserEntity = UserEntity(
    uuid: string,
    username: string,
    email: Option<string>,
    phone: Option<string>,
    systemCode: string,
    roles: seq<string>,
    isActive: bool,
    userId: Id,
    permissions: set<string>)

  /** `UserDomainService.register_user` as written. The duplicate check is
      `exists_by_email_or_phone` as the repository writes it, so an absent
      email or phone collides with any stored user whose column is NULL. A
      reported duplicate raises before anything is written; otherwise the
      repository's `create` runs once and the new user's entity is returned
      with no roles and the user's (empty) permission set. */
  method RegisterUser(m: UserManager, username: string, email: Option<string>, phone: Option<string>,
                      password: string, systemCode: string, userUuid: string, systemUuid: string, now: int)
    returns (r: Result<UserEntity, AccountError>)
    requires m.Valid()
    modifies m
    ensures m.Valid()
    ensures EmailOrPhoneTakenAsWritten(old(m.users), email, phone) ==> r == Err(DuplicateIdentifier) && unchanged(m)
    ensures !EmailOrPhoneTakenAsWritten(old(m.users), email, phone) ==>
              && m.roles == old(m.roles) && m.cache == old(m.cache)
              && FindSystem(m.systems, ByCode(systemCode)).Some?
              && (FindSystem(old(m.systems), ByCode(systemCode)).Some? ==> m.systems == old(m.systems))
              && (FindSystem(old(m.systems), ByCode(systemCode)).None? ==>
                    m.systems == old(m.systems) + [System(old(m.nextSystemId), systemUuid, systemCode, "Basalt")])
    ensures !EmailOrPhoneTakenAsWritten(old(m.users), email, phone) && !Present(email) && !Present(phone) ==>
              r == Err(MissingContact) && m.users == old(m.users)
    ensures !EmailOrPhoneTakenAsWritten(old(m.users), email, phone) && (Present(email) || Present(phone)) ==>
              && r.Ok?
              && var u := User(old(m.nextUserId), userUuid, username, email, phone,
                               Some(FindSystem(m.systems, ByCode(systemCode)).value.id),
                               MakePassword(Some(password)), true, false, false, {}, [], false, now);
                 && m.users == old(m.users) + [u]
                 && CheckPassword(u.password, password)
                 && r.value == UserEntity(userUuid, username, email, phone, systemCode, [], true, u.id, {})
    ensures UniqueContacts(old(m.users)) ==> UniqueContacts(m.users)
  {
    if EmailOrPhoneTakenAsWritten(m.users, email, phone) {
      return Err(DuplicateIdentifier);
    }
    CorrectedIsWeaker(m.users, email, phone);
    r := CreateRegistered(m, username, email, phone, password, systemCode, userUuid, systemUuid, now);
  }

  /** `UserDomainService.register_user` with the duplicate check it evidently
      intends: only a supplied email or phone can collide. Everything after the
      check is the same. */
  method RegisterUserCorrected(m: UserManager, username: string, email: Option<string>, phone: Option<string>,
                               password: string, systemCode: string, userUuid: string, systemUuid: string, now: int)
    returns (r: Result<UserEntity, AccountError>)
    requires m.Valid()
    modifies m
    ensures m.Valid()
    ensures EmailOrPhoneTaken(old(m.users), email, phone) ==> r == Err(DuplicateIdentifier) && unchanged(m)
    ensures !EmailOrPhoneTaken(old(m.users), email, phone) ==>
              && m.roles == old(m.roles) && m.cache == old(m.cache)
              && FindSystem(m.systems, ByCode(systemCode)).Some?
              && (FindSystem(old(m.systems), ByCode(systemCode)).Some? ==> m.systems == old(m.systems))
              && (FindSystem(old(m.systems), ByCode(systemCode)).None? ==>
                    m.systems == old(m.systems) + [System(old(m.nextSystemId), systemUuid, systemCode, "Basalt")])
    ensures !EmailOrPhoneTaken(old(m.users), email, phone) && !Present(email) && !Present(phone) ==>
              r == Err(MissingContact) && m.users == old(m.users)
    ensures !EmailOrPhoneTaken(old(m.users), email, phone) && (Present(email) || Present(phone)) ==>
              && r.Ok?
              && var u := User(old(m.nextUserId), userUuid, username, email, phone,
                               Some(FindSystem(m.systems, ByCode(systemCode)).value.id),
                               MakePassword(Some(password)), true, false, false, {}, [], false, now);
                 && m.users == old(m.users) + [u]
                 && CheckPassword(u.password, password)
                 && r.value == UserEntity(userUuid, username, email, phone, systemCode, [], true, u.id, {})
    ensures UniqueContacts(old(m.users)) ==> UniqueContacts(m.users)
  {
    if EmailOrPhoneTaken(m.users, email, phone) {
      return Err(DuplicateIdentifier);
    }
    r := CreateRegistered(m, username, email, phone, password, systemCode, userUuid, systemUuid, now);
  }

  /** The part of `register_user` after a passed duplicate check: one `create`
      and the entity built from the stored user. The corrected check having
      passed, the new user keeps the stored contacts unique. */
  method CreateRegistered(m: UserManager, username: string, email: Option<string>, phone: Option<string>,
                          password: string, systemCode: string, userUuid: string, systemUuid: string, now: int)
    returns (r: Result<UserEntity, AccountError>)
    requires m.Valid()
    modifies m
    ensures m.Valid()
    ensures && m.roles == old(m.roles) && m.cache == old(m.cache)
              && FindSystem(m.systems, ByCode(systemCode)).Some?
              && (FindSystem(old(m.systems), ByCode(systemCode)).Some? ==> m.systems == old(m.systems))
              && (FindSystem(old(m.systems), ByCode(systemCode)).None? ==>
                    m.systems == old(m.systems) + [System(old(m.nextSystemId), systemUuid, systemCode, "Basalt")])
    ensures !Present(email) && !Present(phone) ==>
              r == Err(MissingContact) && m.users == old(m.users)
    ensures (Present(email) || Present(phone)) ==>
              && r.Ok?
              && var u := User(old(m.nextUserId), userUuid, username, email, phone,
                               Some(FindSystem(m.systems, ByCode(systemCode)).value.id),
                               MakePassword(Some(password)), true, false, false, {}, [], false, now);
                 && m.users == old(m.users) + [u]
                 && CheckPassword(u.password, password)
                 && r.value == UserEntity(userUuid, username, email, phone, systemCode, [], true, u.id, {})
    ensures UniqueContacts(old(m.users)) && !EmailOrPhoneTaken(old(m.users), email, phone) ==> UniqueContacts(m.users)
  {
    var created := Create(m, username, email, phone, Some(password), systemCode, userUuid, systemUuid, now);
    match created
    case Err(e) =>
      r := Err(e);
    case Ok(user) =>
      if UniqueContacts(old(m.users)) && !EmailOrPhoneTaken(old(m.users), email, phone) {
        AdmittedUserKeepsContactsUnique(old(m.users), user);
      }
      var permissions := AllPermissions(user, m.roles);
      r := Ok(UserEntity(user.uuid, user.username, user.email, user.phone, systemCode, [],
                         user.isActive, user.id, permissions));
  }

  /** The decision of `UserDomainService.authenticate_user` once the account
      has been resolved: an unknown account and a wrong password give the same
      error, the password is checked before the active flag, and success
      returns the resolved user itself. */
  function Decide(found: Option<User>, password: string): (r: Result<User, AccountError>)
    ensures r.Ok? <==> found.Some? && CheckPassword(found.value.password, password) && found.value.isActive
    ensures r.Ok? ==> r.value == found.value
    ensures r == Err(InvalidCredentials) <==> found.None? || !CheckPassword(found.value.password, password)
    ensures r == Err(AccountDisabled) <==>
              found.Some? && CheckPassword(found.value.password, password) && !found.value.isActive
  {
    if found.None? || !CheckPassword(found.value.password, password) then Err(InvalidCredentials)
    else if !found.value.isActive then Err(AccountDisabled)
    else Ok(found.value)
  }

  /** Unknown account and wrong password are indistinguishable to the caller. */
  lemma {:induction false} NoAccountEnumeration(u: User, password: string)
    requires !CheckPassword(u.password, password)
    ensures Decide(None, password) == Decide(Some(u), password)
    ensures Message(Decide(Some(u), password).error) == "账号或密码错误"
  {
  }

  /** A disabled user learns that the account is disabled only with the right
      password. */
  lemma {:induction false} DisabledReportedOnlyWithRightPassword(u: User, password: string)
    requires !u.isActive
    ensures Decide(Some(u), password) ==
              if CheckPassword(u.password, password) then Err(AccountDisabled) else Err(InvalidCredentials)
  {
  }

  /** `UserDomainService.authenticate_user`: resolve the account (which may
      fill the system cache), then decide. Nothing but the cache changes. */
  method AuthenticateUser(m: UserManager, account: string, password: string, systemCode: string)
    returns (r: Result<User, AccountError>)
    modifies m`cache
    ensures r == Decide(Lookup(m.users, m.systems, old(m.cache), account, systemCode), password)
    ensures var key := SystemCacheKey(systemCode);
            if key in old(m.cache) then m.cache == old(m.cache)
            else match FindSystem(m.systems, ByCode(systemCode))
                 case Some(s) => m.cache == old(m.cache)[key := s]
                 case None => m.cache == old(m.cache)
    ensures r.Ok? ==> r.value in m.users && r.value.isActive && CheckPassword(r.value.password, password)
  {
    var user := m.GetByAccount(account, systemCode);
    r := Decide(user, password);
  }

  /** `GetMyUserInfoUseCase.execute`: the profile, or "user does not exist". */
  function GetMyUserInfo(users: seq<User>, systems: seq<System>, roles: map<Id, Role>, id: Id)
    : (r: Result<UserInfoEntity, AccountError>)
    ensures r.Err? <==> forall u :: u in users ==> u.id != id
    ensures r.Err? ==> r.error == UserNotFound
    ensures r.Ok? ==> GetById(users, systems, roles, id) == Some(r.value)
  {
    match GetById(users, systems, roles, id)
    case None => Err(UserNotFound)
    case Some(info) => Ok(info)
  }
}
