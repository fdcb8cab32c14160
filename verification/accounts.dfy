/** The account store of the issuing service (the ORM models and their manager):
    users, systems (tenants) and roles; the syntactic classifier that decides
    whether an account string is an email, a phone number or a username; the
    tenant-scoped account lookup behind a `system:{code}` cache; user creation;
    and the permission union a user derives from its direct grants and roles. */
module Accounts {
  import opened Wrappers

  type Id = nat

  // ---------------------------------------------------------------------------
  // Records
  // ---------------------------------------------------------------------------

  /** What the password column holds. Hashing is modelled as an ideal one-way
      function: `Hashed(pre)` stands for the digest of `pre` and is never equal
      to the digest of another password. Django's `set_password(None)` stores
      an unusable password that no raw password checks against. */
  datatype PasswordHash = Hashed(pre: string) | Unusable

  datatype User = User(
    id: Id,
    uuid: string,
    username: string,
    email: Option<string>,
    phone: Option<string>,
    systemId: Option<Id>,
    password: PasswordHash,
    isActive: bool,
    isStaff: bool,
    isSuperuser: bool,
    directPerms: set<string>,   // codenames of the user's own permissions
    roleIds: seq<Id>,           // the user's rows in the user-role join table
    deleted: bool,              // soft-delete flag
    createdAt: int)

  datatype System = System(id: Id, uuid: string, code: string, name: string)

  datatype Role = Role(id: Id, name: string, systemId: Id, perms: set<string>)

  /** The ValueErrors the account layer raises, each with its fixed message. */
  datatype AccountError =
    | MissingContact        // neither phone nor email
    | DuplicateIdentifier   // email or phone already registered
    | InvalidCredentials    // unknown account or wrong password
    | AccountDisabled       // right password, inactive user
    | UserNotFound          // no user with that id

  function Message(e: AccountError): string {
    match e
    case MissingContact => "必须提供手机号或邮箱"
    case DuplicateIdentifier => "邮箱或手机号已注册"
    case InvalidCredentials => "账号或密码错误"
    case AccountDisabled => "账户被禁用"
    case UserNotFound => "用户不存在"
  }

  /** Python truthiness of an optional text argument: None and "" are falsy. */
  predicate Present(s: Option<string>) {
    s.Some? && s.value != ""
  }

  // ---------------------------------------------------------------------------
  // Passwords
  // ---------------------------------------------------------------------------

  /** `set_password`: what is stored for a given raw password. */
  function MakePassword(password: Option<string>): PasswordHash {
    match password
    case None => Unusable
    case Some(p) => Hashed(p)
  }

  /** `check_password`: does the raw password match what is stored? */
  predicate CheckPassword(stored: PasswordHash, raw: string) {
    stored == Hashed(raw)
  }

  /** A stored password accepts exactly the raw password it was made from. */
  lemma MadePasswordChecks(password: Option<string>, raw: string)
    ensures CheckPassword(MakePassword(password), raw) <==> password == Some(raw)
  {
  }

  // ---------------------------------------------------------------------------
  // Account classification
  // ---------------------------------------------------------------------------

  /** `re.match("[^@]+@[^@]+\.[^@]+", s)` succeeds with the `@` at index i and
      the separating `.` at index j: a non-empty run without `@`, the `@`, a
      non-empty run without `@`, a `.`, and one more character that is not `@`.
      The match is anchored at the start only, so whatever follows is ignored. */
  ghost predicate EmailShapeAt(s: string, i: int, j: int) {
    && 0 < i && i + 1 < j && j + 1 < |s|
    && s[i] == '@' && s[j] == '.' && s[j + 1] != '@'
    && forall k :: 0 <= k < j && k != i ==> s[k] != '@'
  }

  ghost predicate MatchesEmailPattern(s: string) {
    exists i, j :: EmailShapeAt(s, i, j)
  }

  /** Index of the first `@` at or after `from`, or |s| when there is none. */
  function FirstAt(s: string, from: nat): (k: nat)
    requires from <= |s|
    ensures from <= k <= |s|
    ensures k < |s| ==> s[k] == '@'
    ensures forall m :: from <= m < k ==> s[m] != '@'
    decreases |s| - from
  {
    if from == |s| || s[from] == '@' then from else FirstAt(s, from + 1)
  }

  /** With the `@` at i, position j is a `.` followed by a non-`@` character and
      nothing between the `@` and j is an `@`. */
  ghost predicate DotAfter(s: string, i: int, j: int) {
    && 0 <= i < j && j + 1 < |s|
    && s[j] == '.' && s[j + 1] != '@'
    && forall k :: i < k < j ==> s[k] != '@'
  }

  /** Scans the domain part that starts after the `@` at i, from position j on. */
  function DomainFrom(s: string, i: nat, j: nat): (r: bool)
    requires i + 2 <= j <= |s|
    requires forall k :: i < k < j ==> s[k] != '@'
    ensures r <==> exists j' :: j <= j' && DotAfter(s, i, j')
    decreases |s| - j
  {
    if j + 1 >= |s| then false
    else if s[j] == '@' then
      assert forall j' :: j < j' ==> !DotAfter(s, i, j') by {
        forall j' | j < j' ensures !DotAfter(s, i, j') {
          assert i < j < j';
        }
      }
      false
    else if s[j] == '.' && s[j + 1] != '@' then
      assert DotAfter(s, i, j);
      true
    else
      DomainFrom(s, i, j + 1)
  }

  /** `_is_valid_email`: a scan for the first `@` and then for a `.` after
      it; it accepts exactly the strings the email pattern matches at the
      start. */
  function IsValidEmail(account: string): (r: bool)
    ensures r <==> MatchesEmailPattern(account)
  {
    var i := FirstAt(account, 0);
    var r := 0 < i && i + 2 <= |account| && account[i + 1] != '@' && DomainFrom(account, i, i + 2);
    assert r ==> MatchesEmailPattern(account) by {
      if r {
        var j :| i + 2 <= j && DotAfter(account, i, j);
        assert EmailShapeAt(account, i, j);
      }
    }
    assert MatchesEmailPattern(account) ==> r by {
      if MatchesEmailPattern(account) {
        var i0, j0 :| EmailShapeAt(account, i0, j0);
        assert account[i0] == '@';
        assert i == i0;
        assert DotAfter(account, i, j0);
      }
    }
    r
  }

  /** A string without `@` never passes the email test. */
  lemma {:induction false} NoAtIsNotEmail(account: string)
    requires forall k :: 0 <= k < |account| ==> account[k] != '@'
    ensures !IsValidEmail(account)
  {
  }

  predicate IsAsciiDigit(c: char) {
    '0' <= c <= '9'
  }

  /** `_is_valid_phone`: `^1\d{10}$`, digits restricted to ASCII. A
      phone-shaped account is never an email, so the phone branch of the
      lookup is reachable for every such account. */
  function IsValidPhone(account: string): (r: bool)
    ensures r ==> !IsValidEmail(account)
  {
    |account| == 11 && account[0] == '1' && forall k :: 1 <= k < 11 ==> IsAsciiDigit(account[k])
  }

  datatype AccountKind = ByEmail | ByPhone | ByUsername

  /** How `get_by_account` reads an account string: email first, then phone,
      otherwise username. Email takes precedence whatever else the account
      resembles, and every phone-shaped account is looked up by phone. */
  function Classify(account: string): (kind: AccountKind)
    ensures kind == ByEmail <==> MatchesEmailPattern(account)
    ensures kind == ByPhone <==> IsValidPhone(account)
    ensures kind == ByUsername <==> !MatchesEmailPattern(account) && !IsValidPhone(account)
  {
    if IsValidEmail(account) then ByEmail
    else if IsValidPhone(account) then ByPhone
    else ByUsername
  }

  /** Any other all-digit string (ten digits, or eleven not starting with `1`)
      is looked up by username. */
  lemma {:induction false} OtherDigitStringsAreUsernames(account: string)
    requires forall k :: 0 <= k < |account| ==> IsAsciiDigit(account[k])
    requires !(|account| == 11 && account[0] == '1')
    ensures Classify(account) == ByUsername
  {
  }

  // ---------------------------------------------------------------------------
  // Account lookup
  // ---------------------------------------------------------------------------

  /** ASCII case folding, as `iexact` compares. */
  function Lower(c: char): char {
    if 'A' <= c <= 'Z' then (c as int + 32) as char else c
  }

  predicate EqualsIgnoreCase(a: string, b: string) {
    |a| == |b| && forall k :: 0 <= k < |a| ==> Lower(a[k]) == Lower(b[k])
  }

  /** The lookup's filter on one field: email case-insensitively, phone and
      username exactly. A NULL email never matches. */
  predicate MatchesAccount(u: User, kind: AccountKind, account: string) {
    match kind
    case ByEmail => u.email.Some? && EqualsIgnoreCase(u.email.value, account)
    case ByPhone => u.phone == Some(account)
    case ByUsername => u.username == account
  }

  /** `Q(system=system) & Q(<field>=account)`. */
  predicate Candidate(u: User, systemId: Id, kind: AccountKind, account: string) {
    u.systemId == Some(systemId) && MatchesAccount(u, kind, account)
  }

  /** `get(query)`, falling back on `filter(query).order_by('id').first()` when
      several users match: the matching user with the smallest id. */
  function FindAccount(users: seq<User>, systemId: Id, kind: AccountKind, account: string): (r: Option<User>)
    ensures r.None? <==> forall u :: u in users ==> !Candidate(u, systemId, kind, account)
    ensures r.Some? ==> r.value in users && Candidate(r.value, systemId, kind, account)
    ensures r.Some? ==> forall u :: u in users && Candidate(u, systemId, kind, account) ==> r.value.id <= u.id
  {
    if users == [] then None
    else
      var rest := FindAccount(users[1..], systemId, kind, account);
      assert forall u :: u in users ==> u == users[0] || u in users[1..];
      if Candidate(users[0], systemId, kind, account) && (rest.None? || users[0].id <= rest.value.id)
      then Some(users[0])
      else rest
  }

  /** How a system is looked up: by its unique code (`System.objects.get`),
      or by primary key when a user's foreign key is followed. */
  datatype SystemKey = ByCode(code: string) | ById(id: Id)

  predicate HasKey(s: System, key: SystemKey) {
    match key
    case ByCode(code) => s.code == code
    case ById(id) => s.id == id
  }

  /** The first stored system with the key, or None when there is none. */
  function FindSystem(systems: seq<System>, key: SystemKey): (r: Option<System>)
    ensures r.None? <==> forall s :: s in systems ==> !HasKey(s, key)
    ensures r.Some? ==> r.value in systems && HasKey(r.value, key)
  {
    if systems == [] then None
    else if HasKey(systems[0], key) then Some(systems[0])
    else
      assert forall s :: s in systems ==> s == systems[0] || s in systems[1..];
      FindSystem(systems[1..], key)
  }

  /** A system appended under a code no stored system has is the one found
      for that code. */
  lemma {:induction false} FindSystemAppend(systems: seq<System>, s: System)
    requires FindSystem(systems, ByCode(s.code)).None?
    ensures FindSystem(systems + [s], ByCode(s.code)) == Some(s)
  {
    if systems != [] {
      assert (systems + [s])[1..] == systems[1..] + [s];
      FindSystemAppend(systems[1..], s);
    }
  }

  function SystemCacheKey(code: string): string {
    "system:" + code
  }

  /** Distinct system codes never share a cache entry. */
  lemma {:induction false} SystemCacheKeyInjective(a: string, b: string)
    ensures SystemCacheKey(a) == SystemCacheKey(b) ==> a == b
  {
    if SystemCacheKey(a) == SystemCacheKey(b) {
      assert a == SystemCacheKey(a)[7..];
      assert b == SystemCacheKey(b)[7..];
    }
  }

  /** The system `get_by_account` scopes to: the cached one if there is a cache
      entry, otherwise the stored one with that code. */
  function ResolveSystem(systems: seq<System>, cache: map<string, System>, code: string): (r: Option<System>)
    ensures SystemCacheKey(code) in cache ==> r == Some(cache[SystemCacheKey(code)])
    ensures SystemCacheKey(code) !in cache ==> (r.Some? <==> exists s :: s in systems && s.code == code)
    ensures SystemCacheKey(code) !in cache && r.Some? ==> r.value in systems && r.value.code == code
  {
    var key := SystemCacheKey(code);
    if key in cache then Some(cache[key]) else FindSystem(systems, ByCode(code))
  }

  /** What `get_by_account` returns, as a function of the store and the cache. */
  function Lookup(users: seq<User>, systems: seq<System>, cache: map<string, System>,
                  account: string, code: string): (r: Option<User>)
    ensures ResolveSystem(systems, cache, code).None? ==> r.None?
    ensures r.Some? ==> && r.value in users
                        && r.value.systemId == Some(ResolveSystem(systems, cache, code).value.id)
                        && MatchesAccount(r.value, Classify(account), account)
    ensures r.Some? ==> forall u :: u in users && Candidate(u, r.value.systemId.value, Classify(account), account)
                                    ==> r.value.id <= u.id
    ensures ResolveSystem(systems, cache, code).Some? && r.None? ==>
              forall u :: u in users ==> !Candidate(u, ResolveSystem(systems, cache, code).value.id, Classify(account), account)
  {
    match ResolveSystem(systems, cache, code)
    case None => None
    case Some(s) => FindAccount(users, s.id, Classify(account), account)
  }

  // ---------------------------------------------------------------------------
  // Permissions
  // ---------------------------------------------------------------------------

  /** The codenames granted by the roles among `roleIds` that exist. */
  function RolePermissions(roleIds: seq<Id>, roles: map<Id, Role>): set<string> {
    set n, p | 0 <= n < |roleIds| && roleIds[n] in roles && p in roles[roleIds[n]].perms :: p
  }

  /** `all_permissions` as a set: direct codenames together with those of every
      assigned role. */
  function Permissions(u: User, roles: map<Id, Role>): set<string> {
    u.directPerms + RolePermissions(u.roleIds, roles)
  }

  /** A codename is among a user's permissions exactly when it is granted
      directly or by one of the user's roles. */
  lemma PermissionsAreUnion(u: User, roles: map<Id, Role>, p: string)
    ensures p in Permissions(u, roles) <==>
              || p in u.directPerms
              || exists n :: 0 <= n < |u.roleIds| && u.roleIds[n] in roles && p in roles[u.roleIds[n]].perms
  {
  }

  lemma {:induction false} RolePermissionsStep(roleIds: seq<Id>, n: nat, roles: map<Id, Role>)
    requires n < |roleIds|
    ensures RolePermissions(roleIds[..n + 1], roles) ==
              RolePermissions(roleIds[..n], roles) + (if roleIds[n] in roles then roles[roleIds[n]].perms else {})
  {
  }

  /** `User.all_permissions`: start from the direct codenames and add each
      role's codenames in turn. Returned as a set: the list Python builds from a
      set has no duplicates and no defined order. */
  method AllPermissions(u: User, roles: map<Id, Role>) returns (perms: set<string>)
    ensures perms == Permissions(u, roles)
  {
    perms := u.directPerms;
    for n := 0 to |u.roleIds|
      invariant perms == u.directPerms + RolePermissions(u.roleIds[..n], roles)
    {
      RolePermissionsStep(u.roleIds, n, roles);
      var id := u.roleIds[n];
      if id in roles {
        perms := perms + roles[id].perms;
      }
    }
    assert u.roleIds[..|u.roleIds|] == u.roleIds;
  }

  /** A direct grant of "p1" and "p2" and a role granting "p2" and "p3" give
      exactly {"p1", "p2", "p3"}: a codename granted both ways is held once. */
  lemma {:induction false} PermissionUnionExample(u: User, roles: map<Id, Role>, r: Id)
    requires u.directPerms == {"p1", "p2"}
    requires u.roleIds == [r] && r in roles && roles[r].perms == {"p2", "p3"}
    ensures Permissions(u, roles) == {"p1", "p2", "p3"}
  {
    assert RolePermissions(u.roleIds, roles) == {"p2", "p3"} by {
      assert u.roleIds[0] == r;
      assert "p2" in roles[u.roleIds[0]].perms && "p3" in roles[u.roleIds[0]].perms;
    }
  }

  /** `has_perm`: a superuser holds every permission; anyone else holds the
      codenames granted directly or by one of their roles. */
  predicate HasPerm(u: User, roles: map<Id, Role>, perm: string)
    ensures HasPerm(u, roles, perm) <==>
              || u.isSuperuser
              || perm in u.directPerms
              || exists n :: 0 <= n < |u.roleIds| && u.roleIds[n] in roles && perm in roles[u.roleIds[n]].perms
  {
    PermissionsAreUnion(u, roles, perm);
    perm in Permissions(u, roles) || u.isSuperuser
  }

  predicate StartsWith(s: string, prefix: string) {
    prefix <= s
  }

  /** `has_module_perms`: a superuser has every module; anyone else has the
      modules of the app labels their permissions start with. */
  predicate HasModulePerms(u: User, roles: map<Id, Role>, appLabel: string)
    ensures u.isSuperuser ==> HasModulePerms(u, roles, appLabel)
    ensures !u.isSuperuser ==>
              (HasModulePerms(u, roles, appLabel) <==> exists p :: HasPerm(u, roles, p) && StartsWith(p, appLabel + "."))
  {
    u.isSuperuser || exists p :: p in Permissions(u, roles) && StartsWith(p, appLabel + ".")
  }

  /** Holding a permission spelled `<app label>.<codename>` gives access to
      that app label's module. `all_permissions` collects bare codenames, so
      only a codename that itself contains the label and a dot meets this
      premise; see `BareCodenameGrantsNoModule`. */
  lemma {:induction false} PermissionGrantsModule(u: User, roles: map<Id, Role>, appLabel: string, codename: string)
    requires HasPerm(u, roles, appLabel + "." + codename)
    ensures HasModulePerms(u, roles, appLabel)
  {
    assert StartsWith(appLabel + "." + codename, appLabel + ".");
  }

  /** The permissions are bare codenames, so an ordinary user holding
      `add_user` neither has `account.add_user`, the name Django callers pass
      to `has_perm`, nor the `account` module. */
  lemma {:induction false} BareCodenameGrantsNoModule(u: User, roles: map<Id, Role>)
    requires !u.isSuperuser && u.directPerms == {"add_user"} && u.roleIds == []
    ensures HasPerm(u, roles, "add_user")
    ensures !HasPerm(u, roles, "account.add_user")
    ensures !HasModulePerms(u, roles, "account")
  {
    assert Permissions(u, roles) == {"add_user"};
    assert !StartsWith("add_user", "account.") by {
      assert "add_user"[1] != "account."[1];
    }
  }

  // ---------------------------------------------------------------------------
  // The store and its manager
  // ---------------------------------------------------------------------------

  function SystemIds(systems: seq<System>): set<Id> {
    set s | s in systems :: s.id
  }

  /** System ids are below the next id and distinct, and codes are unique. */
  ghost predicate SystemsValid(systems: seq<System>, nextSystemId: Id) {
    && (forall n :: 0 <= n < |systems| ==> systems[n].id < nextSystemId)
    && (forall n, m :: 0 <= n < m < |systems| ==> systems[n].id != systems[m].id && systems[n].code != systems[m].code)
  }

  /** User ids are below the next id and distinct, and every user's system is
      stored. */
  ghost predicate UsersValid(users: seq<User>, nextUserId: Id, systems: seq<System>) {
    && (forall n :: 0 <= n < |users| ==> users[n].id < nextUserId)
    && (forall n, m :: 0 <= n < m < |users| ==> users[n].id != users[m].id)
    && (forall n :: 0 <= n < |users| && users[n].systemId.Some? ==> users[n].systemId.value in SystemIds(systems))
  }

  /** Storing a system under the next id and an unused code keeps the store
      invariant, and the new system is the one found for its code. */
  lemma {:induction false} AddSystemKeepsStore(users: seq<User>, nextUserId: Id, systems: seq<System>,
                                               nextSystemId: Id, s: System)
    requires SystemsValid(systems, nextSystemId) && UsersValid(users, nextUserId, systems)
    requires s.id == nextSystemId && FindSystem(systems, ByCode(s.code)).None?
    ensures SystemsValid(systems + [s], nextSystemId + 1) && UsersValid(users, nextUserId, systems + [s])
    ensures FindSystem(systems + [s], ByCode(s.code)) == Some(s)
  {
    forall n | 0 <= n < |systems| ensures systems[n].code != s.code {
      assert systems[n] in systems;
    }
    assert SystemIds(systems + [s]) == SystemIds(systems) + {s.id};
    FindSystemAppend(systems, s);
  }

  /** Storing a user under the next id, in a stored system or none, keeps the
      store invariant. */
  lemma {:induction false} AddUserKeepsStore(users: seq<User>, nextUserId: Id, systems: seq<System>, u: User)
    requires UsersValid(users, nextUserId, systems)
    requires u.id == nextUserId && (u.systemId.Some? ==> u.systemId.value in SystemIds(systems))
    ensures UsersValid(users + [u], nextUserId + 1, systems)
  {
  }

  /** The user and system tables, the role table and the shared cache, with the
      operations of `UserManager` and `System.objects` that change them. */
  class UserManager {
    var users: seq<User>
    var systems: seq<System>
    var roles: map<Id, Role>
    var cache: map<string, System>
    var nextUserId: Id
    var nextSystemId: Id

    /** Primary keys are fresh and distinct, system codes are unique, and a
        user's system exists. */
    ghost predicate Valid()
      reads this
    {
      SystemsValid(systems, nextSystemId) && UsersValid(users, nextUserId, systems)
    }

    constructor ()
      ensures Valid()
      ensures users == [] && systems == [] && roles == map[] && cache == map[]
    {
      users, systems, roles, cache := [], [], map[], map[];
      nextUserId, nextSystemId := 1, 1;
    }

    /** `UserManager.create_user`: refuse a user with neither phone nor email,
        otherwise insert one with the hashed password and default flags. */
    method CreateUser(phone: Option<string>, email: Option<string>, password: Option<string>,
                      username: string, systemId: Option<Id>, uuid: string, now: int)
      returns (r: Result<User, AccountError>)
      requires Valid()
      requires systemId.Some? ==> systemId.value in SystemIds(systems)
      modifies this`users, this`nextUserId
      ensures Valid()
      ensures systems == old(systems) && roles == old(roles) && cache == old(cache)
      ensures !Present(phone) && !Present(email) ==>
                r == Err(MissingContact) && users == old(users) && nextUserId == old(nextUserId)
      ensures Present(phone) || Present(email) ==>
                && r.Ok?
                && r.value == User(old(nextUserId), uuid, username, email, phone, systemId,
                                   MakePassword(password), true, false, false, {}, [], false, now)
                && users == old(users) + [r.value]
                && nextUserId == old(nextUserId) + 1
    {
      if !Present(phone) && !Present(email) {
        return Err(MissingContact);
      }
      var user := User(nextUserId, uuid, username, email, phone, systemId,
                       MakePassword(password), true, false, false, {}, [], false, now);
      AddUserKeepsStore(users, nextUserId, systems, user);
      users := users + [user];
      nextUserId := nextUserId + 1;
      r := Ok(user);
    }

    /** `System.objects.get_or_create(code=code, defaults={"name": name})`. */
    method GetOrCreateSystem(code: string, name: string, uuid: string) returns (s: System)
      requires Valid()
      modifies this`systems, this`nextSystemId
      ensures Valid()
      ensures users == old(users) && roles == old(roles) && cache == old(cache)
      ensures FindSystem(systems, ByCode(code)) == Some(s)
      ensures FindSystem(old(systems), ByCode(code)).Some? ==>
                && s == FindSystem(old(systems), ByCode(code)).value
                && systems == old(systems) && nextSystemId == old(nextSystemId)
      ensures FindSystem(old(systems), ByCode(code)).None? ==>
                && s == System(old(nextSystemId), uuid, code, name)
                && systems == old(systems) + [s] && nextSystemId == old(nextSystemId) + 1
    {
      var found := FindSystem(systems, ByCode(code));
      if found.Some? {
        return found.value;
      }
      s := System(nextSystemId, uuid, code, name);
      AddSystemKeepsStore(users, nextUserId, systems, nextSystemId, s);
      systems := systems + [s];
      nextSystemId := nextSystemId + 1;
    }

    /** `UserManager.get_by_account`: resolve the system through the cache
        (filling it on a miss), then look the account up inside that system. */
    method GetByAccount(account: string, systemCode: string) returns (r: Option<User>)
      modifies this`cache
      ensures r == Lookup(users, systems, old(cache), account, systemCode)
      ensures var key := SystemCacheKey(systemCode);
              if key in old(cache) then cache == old(cache)
              else match FindSystem(systems, ByCode(systemCode))
                   case Some(s) => cache == old(cache)[key := s]
                   case None => cache == old(cache)
    {
      var key := SystemCacheKey(systemCode);
      var system: System;
      if key in cache {
        system := cache[key];
      } else {
        var found := FindSystem(systems, ByCode(systemCode));
        if found.None? {
          return None;
        }
        system := found.value;
        cache := cache[key := system];
      }
      r := FindAccount(users, system.id, Classify(account), account);
    }
  }
}
