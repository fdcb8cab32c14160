/** The Django implementation of the user repository: the duplicate check used
    by registration, the profile read by id, creation with get-or-create of the
    system, and the filtered user listing. */
module Repositories {
  import opened Wrappers
  import opened Accounts

  // ---------------------------------------------------------------------------
  // Duplicate check
  // ---------------------------------------------------------------------------

  /** The two nullable identifier columns the duplicate check queries. */
  datatype Column = EmailColumn | PhoneColumn

  function ColumnOf(u: User, c: Column): Option<string> {
    match c
    case EmailColumn => u.email
    case PhoneColumn => u.phone
  }

  /** `User.objects.filter(<column>=value).exists()`; `value=None` reads
      `IS NULL`, so it finds every user whose column is empty. */
  function ColumnTaken(users: seq<User>, c: Column, value: Option<string>): (r: bool)
    ensures r <==> exists u :: u in users && ColumnOf(u, c) == value
  {
    if users == [] then false
    else
      assert forall u :: u in users ==> u == users[0] || u in users[1..];
      ColumnOf(users[0], c) == value || ColumnTaken(users[1..], c, value)
  }

  /** `exists_by_email_or_phone` as written: the two checks are independent and
      an absent argument matches every user whose column is NULL as well. */
  function EmailOrPhoneTakenAsWritten(users: seq<User>, email: Option<string>, phone: Option<string>): (r: bool)
    ensures r <==> || (exists u :: u in users && u.email == email)
                   || (exists u :: u in users && u.phone == phone)
  {
    ColumnTaken(users, EmailColumn, email) || ColumnTaken(users, PhoneColumn, phone)
  }

  /** The as-written check reports a collision for an absent email as soon as
      any stored user has no email, whatever phone is asked about. */
  lemma AbsentEmailCollidesWithEmaillessUser(users: seq<User>, v: User, phone: Option<string>)
    requires v in users && v.email.None?
    ensures EmailOrPhoneTakenAsWritten(users, None, phone)
  {
  }

  /** Two email-only registrations: after alice (email a@x.com, no phone), a
      request for c@x.com without phone is reported as a duplicate because
      alice's phone is NULL; the corrected check lets it through. */
  lemma SecondEmailOnlyRegistrationRejected(alice: User)
    requires alice.email == Some("a@x.com") && alice.phone == None
    ensures EmailOrPhoneTakenAsWritten([alice], Some("c@x.com"), None)
    ensures !EmailOrPhoneTaken([alice], Some("c@x.com"), None)
  {
  }

  /** The duplicate check registration evidently intends: only a supplied
      email or phone can collide, each with a stored user's equal value. A
      blank value is supplied (the registration form allows it and `create`
      stores it), so it collides with a stored blank exactly as the unique
      column would. */
  function EmailOrPhoneTaken(users: seq<User>, email: Option<string>, phone: Option<string>): (r: bool)
    ensures r <==> || (email.Some? && exists u :: u in users && u.email == email)
                   || (phone.Some? && exists u :: u in users && u.phone == phone)
  {
    (email.Some? && ColumnTaken(users, EmailColumn, email)) || (phone.Some? && ColumnTaken(users, PhoneColumn, phone))
  }

  /** Where both identifiers are supplied, the corrected check and the check
      as written agree. */
  lemma {:induction false} CorrectedAgreesWhenBothSupplied(users: seq<User>, email: Option<string>, phone: Option<string>)
    requires email.Some? && phone.Some?
    ensures EmailOrPhoneTaken(users, email, phone) == EmailOrPhoneTakenAsWritten(users, email, phone)
  {
  }

  /** An identifier that is not supplied never causes a collision: with
      either one missing, only the other is checked. */
  lemma {:induction false} AbsentIdentifierNeverCollides(users: seq<User>, email: Option<string>, phone: Option<string>)
    ensures email.None? ==>
              (EmailOrPhoneTaken(users, email, phone) <==> phone.Some? && exists u :: u in users && u.phone == phone)
    ensures phone.None? ==>
              (EmailOrPhoneTaken(users, email, phone) <==> email.Some? && exists u :: u in users && u.email == email)
  {
  }

  /** Every collision the corrected check reports, the check as written
      reports too: the written check only refuses more. */
  lemma {:induction false} CorrectedIsWeaker(users: seq<User>, email: Option<string>, phone: Option<string>)
    ensures EmailOrPhoneTaken(users, email, phone) ==> EmailOrPhoneTakenAsWritten(users, email, phone)
  {
  }

  /** The unique constraints on the email and phone columns: no two stored
      users share a non-NULL email or a non-NULL phone. */
  ghost predicate UniqueContacts(users: seq<User>) {
    forall n, k :: 0 <= n < k < |users| ==>
      && (users[n].email.Some? ==> users[n].email != users[k].email)
      && (users[n].phone.Some? ==> users[n].phone != users[k].phone)
  }

  /** A user admitted by the corrected check keeps the constraints, so a
      registration it lets through never trips the database's unique index. */
  lemma {:induction false} AdmittedUserKeepsContactsUnique(users: seq<User>, u: User)
    requires UniqueContacts(users)
    requires !EmailOrPhoneTaken(users, u.email, u.phone)
    ensures UniqueContacts(users + [u])
  {
    var s := users + [u];
    forall n, k | 0 <= n < k < |s|
      ensures s[n].email.Some? ==> s[n].email != s[k].email
      ensures s[n].phone.Some? ==> s[n].phone != s[k].phone
    {
      if k == |users| {
        assert s[n] in users;
      }
    }
  }

  // ---------------------------------------------------------------------------
  // Profile by id
  // ---------------------------------------------------------------------------

  datatype UserInfoEntity = UserInfoEntity(
    uuid: string,
    username: string,
    email: Option<string>,
    phone: Option<string>,
    systemCode: Option<string>,
    roles: seq<string>,
    permissions: set<string>)

  /** `User.objects.get(pk=id)`; primary keys are distinct. */
  function FindUserById(users: seq<User>, id: Id): (r: Option<User>)
    ensures r.None? <==> forall u :: u in users ==> u.id != id
    ensures r.Some? ==> r.value in users && r.value.id == id
  {
    if users == [] then None
    else if users[0].id == id then Some(users[0])
    else
      assert forall u :: u in users ==> u == users[0] || u in users[1..];
      FindUserById(users[1..], id)
  }

  /** `[r.name for r in user.roles.all()]`, in join-table order. */
  function RoleNames(roleIds: seq<Id>, roles: map<Id, Role>): (names: seq<string>)
    ensures |names| <= |roleIds|
    ensures forall x :: x in names <==> exists n :: 0 <= n < |roleIds| && roleIds[n] in roles && roles[roleIds[n]].name == x
  {
    if roleIds == [] then []
    else
      var rest := RoleNames(roleIds[1..], roles);
      assert forall n :: 0 < n < |roleIds| ==> roleIds[n] == roleIds[1..][n - 1];
      if roleIds[0] in roles then [roles[roleIds[0]].name] + rest else rest
  }

  /** `user.system.code if user.system else None`. */
  function SystemCodeOf(systems: seq<System>, systemId: Option<Id>): (r: Option<string>)
    ensures r.Some? <==> systemId.Some? && exists s :: s in systems && s.id == systemId.value
    ensures r.Some? ==> exists s :: s in systems && Some(s.id) == systemId && s.code == r.value
  {
    match systemId
    case None => None
    case Some(id) =>
      match FindSystem(systems, ById(id))
      case None => None
      case Some(s) => Some(s.code)
  }

  /** `DjangoUserRepository.get_by_id`. */
  function GetById(users: seq<User>, systems: seq<System>, roles: map<Id, Role>, id: Id): (r: Option<UserInfoEntity>)
    ensures r.None? <==> forall u :: u in users ==> u.id != id
    ensures r.Some? ==> exists u :: && u in users && u.id == id
                                    && r.value.uuid == u.uuid && r.value.username == u.username
                                    && r.value.email == u.email && r.value.phone == u.phone
                                    && r.value.roles == RoleNames(u.roleIds, roles)
                                    && r.value.permissions == Permissions(u, roles)
                                    && r.value.systemCode == SystemCodeOf(systems, u.systemId)
  {
    match FindUserById(users, id)
    case None => None
    case Some(u) =>
      Some(UserInfoEntity(u.uuid, u.username, u.email, u.phone,
                          SystemCodeOf(systems, u.systemId),
                          RoleNames(u.roleIds, roles), Permissions(u, roles)))
  }

  /** In a valid store, the system code reported is that of the user's own
      system. */
  lemma {:induction false} GetByIdReportsOwnSystem(m: Accounts.UserManager, id: Id, u: User, s: System)
    requires m.Valid()
    requires u in m.users && u.id == id && s in m.systems && u.systemId == Some(s.id)
    ensures GetById(m.users, m.systems, m.roles, id).Some?
    ensures GetById(m.users, m.systems, m.roles, id).value.systemCode == Some(s.code)
  {
  }

  // ---------------------------------------------------------------------------
  // Creation
  // ---------------------------------------------------------------------------

  /** `DjangoUserRepository.create`: get-or-create the system named "Basalt" by
      default, then `create_user` in it. The system is created even when the
      user is then refused for lacking both phone and email. */
  method Create(m: UserManager, username: string, email: Option<string>, phone: Option<string>,
                password: Option<string>, systemCode: string, userUuid: string, systemUuid: string, now: int)
    returns (r: Result<User, AccountError>)
    requires m.Valid()
    modifies m
    ensures m.Valid()
    ensures m.roles == old(m.roles) && m.cache == old(m.cache)
    ensures FindSystem(old(m.systems), ByCode(systemCode)).Some? ==>
              m.systems == old(m.systems) && m.nextSystemId == old(m.nextSystemId)
    ensures FindSystem(old(m.systems), ByCode(systemCode)).None? ==>
              && m.systems == old(m.systems) + [System(old(m.nextSystemId), systemUuid, systemCode, "Basalt")]
              && m.nextSystemId == old(m.nextSystemId) + 1
    ensures FindSystem(m.systems, ByCode(systemCode)).Some?
    ensures !Present(phone) && !Present(email) ==>
              r == Err(MissingContact) && m.users == old(m.users) && m.nextUserId == old(m.nextUserId)
    ensures Present(phone) || Present(email) ==>
              && r.Ok?
              && r.value == User(old(m.nextUserId), userUuid, username, email, phone,
                                 Some(FindSystem(m.systems, ByCode(systemCode)).value.id),
                                 MakePassword(password), true, false, false, {}, [], false, now)
              && m.users == old(m.users) + [r.value]
              && m.nextUserId == old(m.nextUserId) + 1
  {
    var system := m.GetOrCreateSystem(systemCode, "Basalt", systemUuid);
    assert system.id in SystemIds(m.systems);
    r := m.CreateUser(phone, email, password, username, Some(system.id), userUuid, now);
  }

  /** In a valid store system codes are unique, so a code names one system. */
  lemma {:induction false} SameCodeSameSystem(systems: seq<System>, nextSystemId: Id, a: System, b: System)
    requires SystemsValid(systems, nextSystemId)
    requires a in systems && b in systems && a.code == b.code
    ensures a == b
  {
  }

  /** `System.objects.get(code=...)` in a valid store: the system found for a
      stored system's code is that very system, never another with the same
      code. */
  lemma {:induction false} FoundSystemIsTheOne(systems: seq<System>, nextSystemId: Id, s: System)
    requires SystemsValid(systems, nextSystemId)
    requires s in systems
    ensures FindSystem(systems, ByCode(s.code)) == Some(s)
  {
    var found := FindSystem(systems, ByCode(s.code));
    assert HasKey(s, ByCode(s.code));
    SameCodeSameSystem(systems, nextSystemId, found.value, s);
  }

  // ---------------------------------------------------------------------------
  // Listing
  // ---------------------------------------------------------------------------

  /** The keyword arguments of `filter_user`. */
  datatype UserFilter = UserFilter(
    system: Option<string>,     // compared with the system's uuid
    username: Option<string>,
    email: Option<string>,
    phone: Option<string>,
    isStaff: Option<bool>,
    isActive: Option<bool>,
    isSuperuser: Option<bool>,
    roleId: Option<Id>)

  /** Python truthiness of a flag argument: only True narrows. */
  predicate On(flag: Option<bool>) {
    flag == Some(true)
  }

  /** Python truthiness of an id argument: None and 0 are skipped. */
  predicate IdGiven(id: Option<Id>) {
    id.Some? && id.value != 0
  }

  predicate OccursAt(hay: string, part: string, n: nat) {
    n + |part| <= |hay| && hay[n..n + |part|] == part
  }

  /** `__contains`: substring containment. */
  predicate Contains(hay: string, part: string) {
    exists n | 0 <= n <= |hay| :: OccursAt(hay, part, n)
  }

  function SystemUuidOf(systems: seq<System>, u: User): Option<string> {
    match u.systemId
    case None => None
    case Some(id) =>
      match FindSystem(systems, ById(id))
      case None => None
      case Some(s) => Some(s.uuid)
  }

  /** One `queryset.filter(...)` step. */
  datatype Criterion =
    | NotDeleted
    | InSystem(uuid: string)
    | UsernameContains(part: string)
    | EmailContains(part: string)
    | PhoneContains(part: string)
    | StaffIs(b: bool)
    | ActiveIs(b: bool)
    | SuperuserIs(b: bool)
    | HoldsRole(roleId: Id)

  predicate Satisfies(u: User, systems: seq<System>, c: Criterion) {
    match c
    case NotDeleted => !u.deleted
    case InSystem(uuid) => SystemUuidOf(systems, u) == Some(uuid)
    case UsernameContains(part) => Contains(u.username, part)
    case EmailContains(part) => u.email.Some? && Contains(u.email.value, part)
    case PhoneContains(part) => u.phone.Some? && Contains(u.phone.value, part)
    case StaffIs(b) => u.isStaff == b
    case ActiveIs(b) => u.isActive == b
    case SuperuserIs(b) => u.isSuperuser == b
    case HoldsRole(id) => id in u.roleIds
  }

  /** The narrowings the eight `if`s of `filter_user` apply, in order; None
      where the argument is falsy and the step is skipped. */
  function Narrowings(f: UserFilter): (steps: seq<Option<Criterion>>)
    ensures |steps| == 8
  {
    [ if Present(f.system) then Some(InSystem(f.system.value)) else None,
      if Present(f.username) then Some(UsernameContains(f.username.value)) else None,
      if Present(f.email) then Some(EmailContains(f.email.value)) else None,
      if Present(f.phone) then Some(PhoneContains(f.phone.value)) else None,
      if On(f.isStaff) then Some(StaffIs(true)) else None,
      if On(f.isActive) then Some(ActiveIs(true)) else None,
      if On(f.isSuperuser) then Some(SuperuserIs(true)) else None,
      if IdGiven(f.roleId) then Some(HoldsRole(f.roleId.value)) else None ]
  }

  function Narrowing(f: UserFilter, k: nat): Option<Criterion> {
    if k < 8 then Narrowings(f)[k] else None
  }

  /** The eight narrowings, one `if` of `filter_user` each, spelled out
      index by index. A solver aid only: `FilterUser` calls it so that each
      step of its chain reads one narrowing without unfolding the list. */
  lemma {:induction false} NarrowingSpelledOut(f: UserFilter)
    ensures Narrowing(f, 0) == if Present(f.system) then Some(InSystem(f.system.value)) else None
    ensures Narrowing(f, 1) == if Present(f.username) then Some(UsernameContains(f.username.value)) else None
    ensures Narrowing(f, 2) == if Present(f.email) then Some(EmailContains(f.email.value)) else None
    ensures Narrowing(f, 3) == if Present(f.phone) then Some(PhoneContains(f.phone.value)) else None
    ensures Narrowing(f, 4) == if On(f.isStaff) then Some(StaffIs(true)) else None
    ensures Narrowing(f, 5) == if On(f.isActive) then Some(ActiveIs(true)) else None
    ensures Narrowing(f, 6) == if On(f.isSuperuser) then Some(SuperuserIs(true)) else None
    ensures Narrowing(f, 7) == if IdGiven(f.roleId) then Some(HoldsRole(f.roleId.value)) else None
  {
  }

  /** A user passes the first `k` steps that apply. */
  predicate PassesFirst(u: User, systems: seq<System>, f: UserFilter, k: nat) {
    forall j | 0 <= j < k :: Narrowing(f, j).Some? ==> Satisfies(u, systems, Narrowing(f, j).value)
  }

  /** A user passes every narrowing whose argument is truthy. */
  predicate MatchesFilter(u: User, systems: seq<System>, f: UserFilter) {
    PassesFirst(u, systems, f, 8)
  }

  /** Newest first: `order_by('-created_at')`. */
  ghost predicate NewestFirst(s: seq<User>) {
    forall n, k :: 0 <= n < k < |s| ==> s[n].createdAt >= s[k].createdAt
  }

  /** Keeps, in order, the users that satisfy `c`. */
  function Select(s: seq<User>, systems: seq<System>, c: Criterion): seq<User> {
    if s == [] then []
    else if Satisfies(s[0], systems, c) then [s[0]] + Select(s[1..], systems, c)
    else Select(s[1..], systems, c)
  }

  /** Selecting keeps every copy of a user that satisfies the criterion and no
      copy of one that does not. */
  lemma {:induction false} SelectCount(s: seq<User>, systems: seq<System>, c: Criterion, x: User)
    ensures multiset(Select(s, systems, c))[x] == if Satisfies(x, systems, c) then multiset(s)[x] else 0
  {
    if s != [] {
      SelectCount(s[1..], systems, c, x);
      assert s == [s[0]] + s[1..];
    }
  }

  /** Selecting keeps only members of the input. */
  lemma {:induction false} SelectSubset(s: seq<User>, systems: seq<System>, c: Criterion)
    ensures forall x :: x in Select(s, systems, c) ==> x in s
  {
    if s != [] {
      SelectSubset(s[1..], systems, c);
    }
  }

  /** Selecting keeps the order. */
  lemma {:induction false} SelectNewestFirst(s: seq<User>, systems: seq<System>, c: Criterion)
    requires NewestFirst(s)
    ensures NewestFirst(Select(s, systems, c))
  {
    if s != [] {
      var rest := Select(s[1..], systems, c);
      SelectNewestFirst(s[1..], systems, c);
      SelectSubset(s[1..], systems, c);
      if Satisfies(s[0], systems, c) {
        var r := [s[0]] + rest;
        forall n, k | 0 <= n < k < |r| ensures r[n].createdAt >= r[k].createdAt {
          if n == 0 {
            assert r[k] in s[1..];
          } else {
            assert r[n] == rest[n - 1] && r[k] == rest[k - 1];
          }
        }
      }
    }
  }

  /** Inserts one user into a newest-first sequence. */
  function InsertNewest(u: User, s: seq<User>): seq<User> {
    if s == [] || s[0].createdAt <= u.createdAt then [u] + s
    else [s[0]] + InsertNewest(u, s[1..])
  }

  lemma {:induction false} InsertNewestCount(u: User, s: seq<User>)
    ensures multiset(InsertNewest(u, s)) == multiset(s) + multiset{u}
  {
    if s != [] && s[0].createdAt > u.createdAt {
      InsertNewestCount(u, s[1..]);
      assert s == [s[0]] + s[1..];
    }
  }

  lemma {:induction false} InsertNewestMembers(u: User, s: seq<User>)
    ensures forall x :: x in InsertNewest(u, s) ==> x == u || x in s
  {
    if s != [] && s[0].createdAt > u.createdAt {
      InsertNewestMembers(u, s[1..]);
    }
  }

  lemma {:induction false} InsertNewestOrder(u: User, s: seq<User>)
    requires NewestFirst(s)
    ensures NewestFirst(InsertNewest(u, s))
  {
    if s != [] && s[0].createdAt > u.createdAt {
      var rest := InsertNewest(u, s[1..]);
      InsertNewestOrder(u, s[1..]);
      InsertNewestMembers(u, s[1..]);
      var r := [s[0]] + rest;
      forall n, k | 0 <= n < k < |r| ensures r[n].createdAt >= r[k].createdAt {
        if n == 0 {
          assert r[k] in rest;
        } else {
          assert r[n] == rest[n - 1] && r[k] == rest[k - 1];
        }
      }
    }
  }

  /** The ordering the database applies. */
  function SortNewestFirst(s: seq<User>): (r: seq<User>)
    ensures NewestFirst(r)
    ensures multiset(r) == multiset(s)
  {
    if s == [] then []
    else
      assert s == [s[0]] + s[1..];
      InsertNewestCount(s[0], SortNewestFirst(s[1..]));
      InsertNewestOrder(s[0], SortNewestFirst(s[1..]));
      InsertNewest(s[0], SortNewestFirst(s[1..]))
  }

  /** After the first k steps, the queryset holds newest first every stored
      copy of each non-deleted user that passed them, and nothing else. */
  ghost predicate Stage(qs: seq<User>, users: seq<User>, systems: seq<System>, f: UserFilter, k: nat) {
    && NewestFirst(qs)
    && forall x :: multiset(qs)[x] == if !x.deleted && PassesFirst(x, systems, f, k) then multiset(users)[x] else 0
  }

  /** The k-th step of the chain. */
  function Narrow(qs: seq<User>, systems: seq<System>, f: UserFilter, k: nat): seq<User> {
    match Narrowing(f, k)
    case None => qs
    case Some(c) => Select(qs, systems, c)
  }

  lemma {:induction false} NarrowStep(qs: seq<User>, users: seq<User>, systems: seq<System>, f: UserFilter, k: nat)
    requires Stage(qs, users, systems, f, k)
    ensures Stage(Narrow(qs, systems, f, k), users, systems, f, k + 1)
  {
    var next := Narrow(qs, systems, f, k);
    forall x: User ensures PassesFirst(x, systems, f, k + 1) <==>
                       PassesFirst(x, systems, f, k) && (Narrowing(f, k).Some? ==> Satisfies(x, systems, Narrowing(f, k).value))
    {
    }
    match Narrowing(f, k)
    case None =>
    case Some(c) =>
      SelectNewestFirst(qs, systems, c);
      forall x: User ensures multiset(next)[x] == if !x.deleted && PassesFirst(x, systems, f, k + 1) then multiset(users)[x] else 0 {
        SelectCount(qs, systems, c, x);
      }
  }

  lemma {:induction false} FirstStage(users: seq<User>, systems: seq<System>, f: UserFilter)
    ensures Stage(SortNewestFirst(Select(users, systems, NotDeleted)), users, systems, f, 0)
  {
    forall x: User ensures multiset(SortNewestFirst(Select(users, systems, NotDeleted)))[x] ==
                       if !x.deleted && PassesFirst(x, systems, f, 0) then multiset(users)[x] else 0 {
      SelectCount(users, systems, NotDeleted, x);
    }
  }

  /** The eight steps of the chain, taken from the first queryset, end in a
      queryset that holds exactly the users passing every step. */
  lemma {:induction false} ChainStage(users: seq<User>, systems: seq<System>, f: UserFilter,
                                      q0: seq<User>, q1: seq<User>, q2: seq<User>, q3: seq<User>, q4: seq<User>,
                                      q5: seq<User>, q6: seq<User>, q7: seq<User>, q8: seq<User>)
    requires q0 == SortNewestFirst(Select(users, systems, NotDeleted))
    requires q1 == Narrow(q0, systems, f, 0) && q2 == Narrow(q1, systems, f, 1)
    requires q3 == Narrow(q2, systems, f, 2) && q4 == Narrow(q3, systems, f, 3)
    requires q5 == Narrow(q4, systems, f, 4) && q6 == Narrow(q5, systems, f, 5)
    requires q7 == Narrow(q6, systems, f, 6) && q8 == Narrow(q7, systems, f, 7)
    ensures Stage(q8, users, systems, f, 8)
  {
    FirstStage(users, systems, f);
    NarrowStep(q0, users, systems, f, 0);
    NarrowStep(q1, users, systems, f, 1);
    NarrowStep(q2, users, systems, f, 2);
    NarrowStep(q3, users, systems, f, 3);
    NarrowStep(q4, users, systems, f, 4);
    NarrowStep(q5, users, systems, f, 5);
    NarrowStep(q6, users, systems, f, 6);
    NarrowStep(q7, users, systems, f, 7);
  }

  /** `DjangoUserRepository.filter_user`: the non-deleted users, newest first,
      narrowed by each truthy argument in turn. A stored user appears (as often
      as it is stored) exactly when it is not deleted and matches. */
  method FilterUser(users: seq<User>, systems: seq<System>, f: UserFilter) returns (r: seq<User>)
    ensures forall x :: multiset(r)[x] == if !x.deleted && MatchesFilter(x, systems, f) then multiset(users)[x] else 0
    ensures NewestFirst(r)
  {
    NarrowingSpelledOut(f);
    var qs := SortNewestFirst(Select(users, systems, NotDeleted));
    ghost var q0 := qs;
    if Present(f.system) {
      qs := Select(qs, systems, InSystem(f.system.value));
    }
    ghost var q1 := qs;
    assert q1 == Narrow(q0, systems, f, 0);
    if Present(f.username) {
      qs := Select(qs, systems, UsernameContains(f.username.value));
    }
    ghost var q2 := qs;
    assert q2 == Narrow(q1, systems, f, 1);
    if Present(f.email) {
      qs := Select(qs, systems, EmailContains(f.email.value));
    }
    ghost var q3 := qs;
    assert q3 == Narrow(q2, systems, f, 2);
    if Present(f.phone) {
      qs := Select(qs, systems, PhoneContains(f.phone.value));
    }
    ghost var q4 := qs;
    assert q4 == Narrow(q3, systems, f, 3);
    if On(f.isStaff) {
      qs := Select(qs, systems, StaffIs(true));
    }
    ghost var q5 := qs;
    assert q5 == Narrow(q4, systems, f, 4);
    if On(f.isActive) {
      qs := Select(qs, systems, ActiveIs(true));
    }
    ghost var q6 := qs;
    assert q6 == Narrow(q5, systems, f, 5);
    if On(f.isSuperuser) {
      qs := Select(qs, systems, SuperuserIs(true));
    }
    ghost var q7 := qs;
    assert q7 == Narrow(q6, systems, f, 6);
    if IdGiven(f.roleId) {
      qs := Select(qs, systems, HoldsRole(f.roleId.value));
    }
    ghost var q8 := qs;
    assert q8 == Narrow(q7, systems, f, 7);
    ChainStage(users, systems, f, q0, q1, q2, q3, q4, q5, q6, q7, q8);
    r := qs;
  }

  /** `g` keeps every truthy narrowing of `f`, with the same value. */
  predicate Narrows(g: UserFilter, f: UserFilter) {
    forall k | 0 <= k < 8 :: Narrowing(f, k).Some? ==> Narrowing(g, k) == Narrowing(f, k)
  }

  /** Adding truthy filters never lets more users through. */
  lemma NarrowerFilterSelectsFewer(u: User, systems: seq<System>, f: UserFilter, g: UserFilter)
    requires Narrows(g, f)
    ensures MatchesFilter(u, systems, g) ==> MatchesFilter(u, systems, f)
  {
  }

  /** A Python `False` flag is skipped like None: passing `is_active=False`
      (and likewise for the staff and superuser flags) does not narrow the
      listing to inactive users. */
  lemma FalseFlagIsSkipped(u: User, systems: seq<System>, f: UserFilter)
    ensures MatchesFilter(u, systems, f.(isActive := Some(false))) == MatchesFilter(u, systems, f.(isActive := None))
    ensures MatchesFilter(u, systems, f.(isStaff := Some(false))) == MatchesFilter(u, systems, f.(isStaff := None))
    ensures MatchesFilter(u, systems, f.(isSuperuser := Some(false))) == MatchesFilter(u, systems, f.(isSuperuser := None))
  {
    assert forall k :: Narrowing(f.(isActive := Some(false)), k) == Narrowing(f.(isActive := None), k);
    assert forall k :: Narrowing(f.(isStaff := Some(false)), k) == Narrowing(f.(isStaff := None), k);
    assert forall k :: Narrowing(f.(isSuperuser := Some(false)), k) == Narrowing(f.(isSuperuser := None), k);
  }
}
