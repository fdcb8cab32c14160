# Basalt identity and credentials, modelled in Dafny

Basalt is two Django services. The issuing service (`basalt_oa`) keeps
users, systems and roles. It registers users: the duplicate check comes
first, then the user is created in a system that is got or created by code.
It logs users in by email, phone or username inside one system. It reports
a user's profile and their permissions, the union of direct grants and role
grants, and it lists users through optional filters. The resource service
(`basalt_resource`) never sees that database. Its middleware resolves a
bearer token to an identity by asking the issuing service and caching the
answer. Its authenticator trusts the token's own claims once the signature
checks.

The model has one module per concern:

| file | module | models |
|---|---|---|
| `wrappers.dfy` | `Wrappers` | `Option`, `Result` |
| `json.dfy` | `JsonValue` | JSON values, Python truthiness, `dict.get` |
| `accounts.dfy` | `Accounts` | `orm_models.py`: the user manager (a class over the user and system tables, the role table and the shared cache), account classification, lookup, permissions |
| `repositories.dfy` | `Repositories` | `infrastructure/repositories.py`: duplicate check, profile by id, creation, filtered listing |
| `services.dfy` | `Services` | `domain/services.py` (registration both as written and with the corrected duplicate check of the finding below) and the profile use case |
| `bearer.dfy` | `BearerHeader` | the `Authorization: Bearer` parsing both resource-side files share |
| `middleware.dfy` | `RemoteMiddleware` | `RemoteJWTMiddleware.process_request`, a class over the token cache |
| `authentication.dfy` | `RemoteAuthentication` | `RemoteJWTAuthentication.authenticate`, `SimpleRemoteUser` |

Several things are parameters of the model rather than part of it:

- **Clock and identifiers.** The clock (`created_at`) and fresh uuids are
  parameters. Primary keys come from counters in the manager.
- **Password hashing.** It is modelled as an ideal hash. `Hashed(p)` is the
  only stored value that accepts `p`. A password of None stores `Unusable`,
  which accepts nothing.
- **The identity endpoint.** Its reply is a parameter of
  `ProcessRequest`: a status with a parsed body, a body that failed to
  parse, or a transport failure. A ghost log records every header sent.
- **Token decoding.** `jwt.decode` with the shared key is a function
  parameter `decode` that yields claims, an expired signature or an
  invalid token.
- **None values.** Python's None is `Option.None` for stored columns and
  `JNull` for JSON.

Permissions are bare codenames, as in the program: `all_permissions`
(orm_models.py:91, 93) collects codenames without their app label. So for
an ordinary user `has_perm("account.add_user")` is false in the program
itself unless some granted codename literally is `account.add_user`, and
`has_module_perms` needs a codename that starts with the label and a dot.
`Accounts.BareCodenameGrantsNoModule` shows this.

## Model

| member | source | states |
|---|---|---|
| `Accounts.UserManager.constructor` | basalt_oa/account/infrastructure/orm_models.py:15-22 | starts with empty tables and cache, and the store invariant holds (fresh distinct ids, unique system codes, user systems exist) |
| `Accounts.UserManager.CreateUser` | basalt_oa/account/infrastructure/orm_models.py:16-22 | with neither a non-empty phone nor a non-empty email it refuses with "必须提供手机号或邮箱" and writes nothing; otherwise it appends exactly one active, non-staff, non-superuser user with a fresh id, the given fields and the hashed password, and keeps the store invariant |
| `Accounts.MadePasswordChecks` | basalt_oa/account/infrastructure/orm_models.py:20 | a stored password accepts a raw password exactly when it was made from that one; a None password accepts nothing |
| `Accounts.FirstAt` | basalt_oa/account/infrastructure/orm_models.py:57-58 | returns the first `@` at or after the start position, or the end when there is none |
| `Accounts.DomainFrom` | basalt_oa/account/infrastructure/orm_models.py:57-58 | true exactly when some later `.` follows the `@` with no other `@` before it and a non-`@` character after it |
| `Accounts.IsValidEmail` | basalt_oa/account/infrastructure/orm_models.py:57-58 | the email test accepts exactly the strings that `re.match("[^@]+@[^@]+\.[^@]+")` matches at the start |
| `Accounts.IsValidPhone` | basalt_oa/account/infrastructure/orm_models.py:60-61 | a phone-shaped account (`1` and ten digits) never passes the email test |
| `Accounts.Classify` | basalt_oa/account/infrastructure/orm_models.py:41-46 | an account is looked up by email exactly when it matches the email pattern, whatever else it resembles; by phone exactly when it is phone-shaped; by username otherwise |
| `Accounts.NoAtIsNotEmail` | basalt_oa/account/infrastructure/orm_models.py:57-58 | a string with no `@` is never an email |
| `Accounts.OtherDigitStringsAreUsernames` | basalt_oa/account/infrastructure/orm_models.py:41-46 | any other all-digit string is looked up by username |
| `Accounts.FindAccount` | basalt_oa/account/infrastructure/orm_models.py:48-55 | None exactly when no user of the system matches the account; otherwise a matching user of that system with the smallest id, so several matches resolve like `order_by('id').first()` |
| `Accounts.FindSystem` | basalt_oa/account/infrastructure/orm_models.py:34-36 | None exactly when no stored system has the code (or, following a foreign key, the id); otherwise a stored system with it |
| `Accounts.SystemCacheKeyInjective` | basalt_oa/account/infrastructure/orm_models.py:30 | distinct system codes have distinct `system:` cache keys |
| `Accounts.ResolveSystem` | basalt_oa/account/infrastructure/orm_models.py:30-38 | a cache entry for `system:<code>` is used as it is, even when the store has changed; without one, a system exactly when some stored system has the code, and then a stored system with that code |
| `Accounts.Lookup` | basalt_oa/account/infrastructure/orm_models.py:29-55 | no system means no user; a user found is in the resolved system, matches the account by its classified field, and has the smallest id among such users; None with a system means no user matches |
| `Accounts.UserManager.GetByAccount` | basalt_oa/account/infrastructure/orm_models.py:29-55 | returns `Lookup` over the store and the cache as it was before; a cache hit leaves the cache alone; a miss caches the found system under `system:<code>`; an unknown code caches nothing |
| `Accounts.RolePermissionsStep` | basalt_oa/account/infrastructure/orm_models.py:92-93 | adding one more role adds exactly that role's codenames (none for a missing role) |
| `Accounts.AllPermissions` | basalt_oa/account/infrastructure/orm_models.py:89-94 | the loop returns the user's direct codenames together with every assigned role's codenames |
| `Accounts.PermissionsAreUnion` | basalt_oa/account/infrastructure/orm_models.py:89-94 | a codename is held exactly when it is granted directly or by one of the user's roles |
| `Accounts.PermissionUnionExample` | basalt_oa/account/infrastructure/orm_models.py:89-94 | direct {p1, p2} with one role granting {p2, p3} gives exactly {p1, p2, p3}: a codename granted both ways is held once |
| `Accounts.HasPerm` | basalt_oa/account/infrastructure/orm_models.py:96-97 | a permission is held exactly when the user is a superuser, has it directly, or has it through one of their existing roles |
| `Accounts.HasModulePerms` | basalt_oa/account/infrastructure/orm_models.py:99-100 | a superuser has every module; anyone else has a module exactly when they hold some permission that starts with `<app label>.` |
| `Accounts.PermissionGrantsModule` | basalt_oa/account/infrastructure/orm_models.py:96-100 | holding a permission spelled `<app label>.<codename>` gives access to that app label's module; since the permissions are bare codenames, only a codename that itself starts with the label and a dot meets this |
| `Accounts.BareCodenameGrantsNoModule` | basalt_oa/account/infrastructure/orm_models.py:89-100 | an ordinary user holding only `add_user` has `add_user` but neither `account.add_user` nor the `account` module |
| `Accounts.FindSystemAppend` | basalt_oa/account/infrastructure/repositories.py:31 | a system created under a code no stored system has is the one later found for that code |
| `Accounts.AddSystemKeepsStore` | basalt_oa/account/infrastructure/orm_models.py:107 | storing a system under the next id and an unused code keeps ids fresh and distinct and codes unique |
| `Accounts.AddUserKeepsStore` | basalt_oa/account/infrastructure/orm_models.py:19-21 | storing a user under the next id, in a stored system or none, keeps user ids fresh and distinct and every user's system stored |
| `Accounts.UserManager.GetOrCreateSystem` | basalt_oa/account/infrastructure/repositories.py:31 | returns the system then found for the code: the stored one, with systems and the system counter unchanged, or one new system appended with the next id and the given name, the counter advanced by one; users, roles and cache are untouched and the store invariant is kept |
| `Repositories.ColumnTaken` | basalt_oa/account/infrastructure/repositories.py:13 | true exactly when some user's email (or phone) column equals the argument, with None matching every NULL column |
| `Repositories.EmailOrPhoneTakenAsWritten` | basalt_oa/account/infrastructure/repositories.py:12-13 | `exists_by_email_or_phone` as written: true exactly when some user's email equals the email or some user's phone equals the phone, None matching NULL |
| `Repositories.AbsentEmailCollidesWithEmaillessUser` | basalt_oa/account/infrastructure/repositories.py:12-13 | the check as written reports a duplicate for a missing email once any user has no email |
| `Repositories.SecondEmailOnlyRegistrationRejected` | basalt_oa/account/infrastructure/repositories.py:12-13 | after an email-only user, the check as written rejects a different email-only registration; the corrected check admits it |
| `Repositories.EmailOrPhoneTaken` | basalt_oa/account/infrastructure/repositories.py:12-13 | the corrected half of the finding below: true exactly when a supplied email or phone (blank included) equals a stored user's; an absent one never collides |
| `Repositories.CorrectedAgreesWhenBothSupplied` | basalt_oa/account/infrastructure/repositories.py:12-13 | part of the finding below: with both identifiers supplied, the corrected check and the check as written agree |
| `Repositories.AbsentIdentifierNeverCollides` | basalt_oa/account/infrastructure/repositories.py:12-13 | the corrected half of the finding below: with the email missing only the phone is checked, and with the phone missing only the email |
| `Repositories.CorrectedIsWeaker` | basalt_oa/account/infrastructure/repositories.py:12-13 | every collision the corrected check reports, the check as written reports too |
| `Repositories.AdmittedUserKeepsContactsUnique` | basalt_oa/account/infrastructure/orm_models.py:70-71 | a user the corrected check admits keeps the stored emails and phones unique, as the unique columns require |
| `Repositories.FindUserById` | basalt_oa/account/infrastructure/repositories.py:17 | None exactly when no user has the id; otherwise the stored user with that id |
| `Repositories.RoleNames` | basalt_oa/account/infrastructure/repositories.py:24 | the names are exactly those of the user's existing roles, and there are no more names than role entries |
| `Repositories.SystemCodeOf` | basalt_oa/account/infrastructure/repositories.py:23 | a code exactly when the user has a system id that a stored system carries, and then the code of such a system |
| `Repositories.GetById` | basalt_oa/account/infrastructure/repositories.py:15-28 | None exactly when no user has the id; otherwise the profile carries that user's uuid, username, email, phone, role names and permission set, and the code of the user's stored system, None when the user has no system or its id names no stored system |
| `Repositories.GetByIdReportsOwnSystem` | basalt_oa/account/infrastructure/repositories.py:23 | in a valid store the reported system code is the code of the user's own system |
| `Repositories.Create` | basalt_oa/account/infrastructure/repositories.py:30-32 | the system with that code exists afterwards (created with name "Basalt" and the next system id if it was missing, even when the user is then refused; otherwise the system counter is unchanged); the user is refused exactly when phone and email are both missing, and then users and the user counter are unchanged; otherwise one user is appended under the next user id, attached to that system, and the user counter advances by one |
| `Repositories.SameCodeSameSystem` | basalt_oa/account/infrastructure/orm_models.py:107 | in a valid store two stored systems with the same code are the same system |
| `Repositories.FoundSystemIsTheOne` | basalt_oa/account/infrastructure/orm_models.py:34 | in a valid store the system found for a stored system's code is that system itself |
| `Repositories.SelectCount` | basalt_oa/account/infrastructure/repositories.py:36-52 | one `filter` step keeps every stored copy of a satisfying user and drops every copy of the rest |
| `Repositories.SelectSubset` | basalt_oa/account/infrastructure/repositories.py:36-52 | a `filter` step only keeps users that were already in the queryset |
| `Repositories.SelectNewestFirst` | basalt_oa/account/infrastructure/repositories.py:36-52 | a `filter` step keeps the newest-first order |
| `Repositories.InsertNewestCount` | basalt_oa/account/infrastructure/repositories.py:36 | inserting into the ordering adds exactly one copy of the user |
| `Repositories.InsertNewestMembers` | basalt_oa/account/infrastructure/repositories.py:36 | inserting adds no user other than the inserted one |
| `Repositories.InsertNewestOrder` | basalt_oa/account/infrastructure/repositories.py:36 | inserting into a newest-first sequence keeps it newest first |
| `Repositories.SortNewestFirst` | basalt_oa/account/infrastructure/repositories.py:36 | `order_by('-created_at')`: the result is newest first and a permutation of its input |
| `Repositories.NarrowStep` | basalt_oa/account/infrastructure/repositories.py:37-52 | each `if` of the chain keeps exactly the users that pass the steps so far, newest first |
| `Repositories.FirstStage` | basalt_oa/account/infrastructure/repositories.py:36 | the starting queryset holds exactly the non-deleted users, newest first |
| `Repositories.ChainStage` | basalt_oa/account/infrastructure/repositories.py:36-52 | after all eight `if`s the queryset holds exactly the non-deleted users that pass every applicable step |
| `Repositories.FilterUser` | basalt_oa/account/infrastructure/repositories.py:34-53 | the result holds each stored user as often as it is stored exactly when it is not deleted and passes every narrowing whose argument is truthy (system by uuid, substring on username, email and phone, True flags, non-zero role id), and nothing else; it is newest first |
| `Repositories.NarrowerFilterSelectsFewer` | basalt_oa/account/infrastructure/repositories.py:37-52 | adding truthy arguments never lets more users through |
| `Repositories.FalseFlagIsSkipped` | basalt_oa/account/infrastructure/repositories.py:45-50 | a False `is_staff`, `is_active` or `is_superuser` narrows nothing, exactly like an absent one |
| `Services.RegisterUser` | basalt_oa/account/domain/services.py:9-22 | with the duplicate check as written: a reported duplicate refuses with "邮箱或手机号已注册" and changes nothing; otherwise creation runs once (the system get-or-created by code); with a phone or an email, the entity is the new user's, with the given system code, no roles, active, an empty permission set, and a password that checks; stored emails and phones stay unique |
| `Services.RegisterUserCorrected` | basalt_oa/account/domain/services.py:9-22 | the same registration with the corrected duplicate check: only a supplied email or phone is refused as a duplicate, and stored emails and phones stay unique |
| `Services.CreateRegistered` | basalt_oa/account/domain/services.py:14-22 | after a passed check: one creation, the new user's entity returned, and a user admitted by the corrected check keeps emails and phones unique |
| `Services.Decide` | basalt_oa/account/domain/services.py:24-30 | success exactly when a user was found, the password checks and the user is active, and then it is that user; "账号或密码错误" exactly when no user was found or the password is wrong; "账户被禁用" exactly when the password is right but the user is inactive |
| `Services.NoAccountEnumeration` | basalt_oa/account/domain/services.py:26-27 | an unknown account and a wrong password give the same outcome and message |
| `Services.DisabledReportedOnlyWithRightPassword` | basalt_oa/account/domain/services.py:26-29 | an inactive user learns the account is disabled only with the right password |
| `Services.AuthenticateUser` | basalt_oa/account/domain/services.py:24-30 | decides over the lookup against the cache as it was before; success means an active user in the store whose password checks; the cache is left alone on a hit, gains `system:<code>` for the stored system on a miss, and is left alone when no system has the code |
| `Services.GetMyUserInfo` | basalt_oa/account/application/use_cases.py:28-32 | "用户不存在" exactly when no user has the id; otherwise the repository's profile |
| `BearerHeader.Split` | basalt_resource/middlewares/user_integration/middleware.py:19 | `str.split(" ")`: at least one field, no field holds a space, and the first field is the longest space-free prefix |
| `BearerHeader.JoinSplit` | basalt_resource/middlewares/user_integration/middleware.py:19 | joining the fields with single spaces gives back the header |
| `BearerHeader.SplitAfterWord` | basalt_resource/middlewares/user_integration/middleware.py:19 | a space-free word followed by a space is the first field and the rest splits on its own |
| `BearerHeader.BearerToken` | basalt_resource/middlewares/user_integration/authentication.py:15 | once the header starts with "Bearer ", the second field exists and is the longest space-free run after the prefix |
| `BearerHeader.BearerTokenUnique` | basalt_resource/middlewares/user_integration/middleware.py:19 | any string with those three properties is the token, so the token is well defined |
| `BearerHeader.TrailingFieldIgnored` | basalt_resource/middlewares/user_integration/authentication.py:15 | "Bearer abc def" yields the token "abc" |
| `RemoteMiddleware.CacheKey` | basalt_resource/middlewares/user_integration/middleware.py:23 | the key starts with `user_jwt:` and the rest of it is exactly the token |
| `RemoteMiddleware.CacheKeyInjective` | basalt_resource/middlewares/user_integration/middleware.py:23 | distinct tokens never share a cache entry |
| `RemoteMiddleware.RemoteJwtMiddleware.constructor` | basalt_resource/middlewares/user_integration/middleware.py:9-10 | starts with an empty cache and no upstream calls |
| `RemoteMiddleware.RemoteJwtMiddleware.ProcessRequest` | basalt_resource/middlewares/user_integration/middleware.py:12-36 | without a bearer header: no token, no identity, no cache change, no call; otherwise the token is recorded; a truthy cached identity is attached with no call and no cache change; otherwise exactly one call carries `Bearer <token>`; a 200 reply with a parsed body is attached and cached under that key only; anything else attaches no identity and caches nothing |
| `RemoteMiddleware.RepeatedTokenHitsCache` | basalt_resource/middlewares/user_integration/middleware.py:24-30 | after a truthy identity resolves upstream, the next request with that token gets the same identity with no further call |
| `RemoteMiddleware.FailureIsNotCached` | basalt_resource/middlewares/user_integration/middleware.py:28-34 | a failed resolution is retried: the next request with that token calls upstream again and can then succeed |
| `RemoteAuthentication.UserInfo` | basalt_resource/middlewares/user_integration/authentication.py:25-30 | the info dict has exactly the keys uuid, username, email and permissions, with an empty permission list when the claim is absent |
| `RemoteAuthentication.NewSimpleRemoteUser` | basalt_resource/middlewares/user_integration/authentication.py:38-42 | a dict without permissions gives an empty permission list |
| `RemoteAuthentication.IsAuthenticated` | basalt_resource/middlewares/user_integration/authentication.py:44-46 | every identity built from a token is authenticated |
| `RemoteAuthentication.Authenticate` | basalt_resource/middlewares/user_integration/authentication.py:10-33 | no attempt exactly when the header is absent or not a bearer header; a rejection exactly when the token does not decode, with "Token 已过期" exactly for an expired signature; on success the credentials are None and the user is authenticated |
| `RemoteAuthentication.IdentityFromClaims` | basalt_resource/middlewares/user_integration/authentication.py:25-42 | the identity is uuid from `user_id`, username and email from their claims (None when absent), and the permissions claim or an empty list |
| `RemoteAuthentication.OnlyTheTokenMatters` | basalt_resource/middlewares/user_integration/authentication.py:15-33 | the outcome depends on the header only through its token's decoding; nothing else is consulted |
| `RemoteAuthentication.BadTokenIsRefused` | basalt_resource/middlewares/user_integration/authentication.py:19-22 | a bearer token that does not decode is refused, never passed over, with the expiry message exactly for an expired signature |

## Left out

- `create_superuser` (orm_models.py:24-27), the views, serializers, URL routes and the superuser bootstrap command are not part of this model; they only call the operations above.
- `DjangoUserRepository.get_by_account`, `UserDomainService.list_users` and the login, register and list use cases forward their arguments unchanged. `Accounts.UserManager.GetByAccount`, `Repositories.FilterUser` and the `Services` members stand for them.
- Races between the duplicate check and creation (the `IntegrityError` a concurrent duplicate raises) are not modelled: the store is used by one request at a time. The unique constraints themselves are the predicate `Repositories.UniqueContacts`, which both registrations keep; `Accounts.UserManager.CreateUser` called directly does not check it.
- Cache time-outs (3600 s for systems, 300 s for identities) are not modelled: an entry stays until the model removes it, which it never does. A system cache entry can therefore be stale, as in the source.
- Soft deletion through `utensil.models.Base` is not part of this model beyond the `deleted` flag that `filter_user` reads; `get_by_account` and `get_by_id` ignore it, as they do in the source.
- Password hashing algorithms, salts and Django's `check_password` upgrade path are replaced by an ideal hash.
- Token minting, signature checking and claim validation inside `jwt.decode` are a parameter; the signing key is not modelled.
- The regular expressions' finer points are not modelled: `$` also matching before a trailing newline, and `\d` matching non-ASCII digits. The phone test takes exactly eleven ASCII characters.
- `iexact` is modelled as ASCII case folding; Unicode case folding is not modelled.
- Query-string parsing of the listing filters is not part of this model: flags arrive as `Option<bool>` and the role id as `Option<nat>`.
- The order of role names and of permissions is not modelled: permissions are a set, and role names follow the role list.
- Floating-point JSON numbers are not modelled; `JNumber` holds integers.
- Logging is left out.
- Repositories.RoleNames: its contract says which names appear and bounds their number; it does not state their order.
- Accounts.AllPermissions: it returns a set; the order of the list Python builds from that set is undefined and is not modelled.

## Findings

| source | as written | input that shows it | evidently intended | confidence | as-written member | corrected member |
|---|---|---|---|---|---|---|
| basalt_oa/account/infrastructure/repositories.py:12-13 | `filter(email=email)` and `filter(phone=phone)` run even when the argument is None, and Django reads `field=None` as `IS NULL` | a stored user with email `a@x.com` and no phone, then a registration with email `c@x.com` and no phone: `filter(phone=None)` finds the first user, so the second is refused as a duplicate | only a supplied email or phone can collide; a blank one is supplied and collides with a stored blank, as the unique column would | not executed | `Repositories.EmailOrPhoneTakenAsWritten` (used by `Services.RegisterUser`, shown by `Repositories.SecondEmailOnlyRegistrationRejected`) | `Repositories.EmailOrPhoneTaken` (used by `Services.RegisterUserCorrected`) |
