/** `RemoteJWTAuthentication.authenticate` of the resource service: trust the
    token's own claims, checked with the shared signing key, and never consult
    a user store. Signature checking is a parameter: `decode` stands for
    `jwt.decode` with the configured key and HS256. */
module RemoteAuthentication {
  import opened Wrappers
  import opened JsonValue
  import opened BearerHeader

  /** What `jwt.decode` does with a token: the claims, or one of the two
      errors the authenticator tells apart (an expired signature is caught
      before every other invalid-token error). */
  datatype Decoded = Claims(payload: map<string, Json>) | ExpiredSignature | InvalidToken

  /** `SimpleRemoteUser`: the lightweight identity built from the claims. */
  datatype RemoteUser = RemoteUser(uuid: Json, username: Json, email: Json, permissions: Json)

  /** The authenticator's three outcomes: `None` (let other authenticators
      try), `AuthenticationFailed(detail)`, or the pair (user, auth) with
      `auth` always None. */
  datatype AuthOutcome =
    | NotAttempted
    | Rejected(detail: string)
    | Authenticated(user: RemoteUser, auth: Option<string>)

  const ExpiredDetail: string := "Token 已过期"
  const InvalidDetail: string := "无效的 Token"

  /** The `user_info` dict: the issuer's `user_id` claim is the user's uuid,
      and a token without a `permissions` claim grants none. */
  function UserInfo(payload: map<string, Json>): (info: map<string, Json>)
    ensures info.Keys == {"uuid", "username", "email", "permissions"}
    ensures "permissions" !in payload ==> info["permissions"] == JArray([])
  {
    map["uuid" := Get(payload, "user_id"),
        "username" := Get(payload, "username"),
        "email" := Get(payload, "email"),
        "permissions" := GetOr(payload, "permissions", JArray([]))]
  }

  /** `SimpleRemoteUser.__init__`: read the fields back out of the dict. */
  function NewSimpleRemoteUser(info: map<string, Json>): (u: RemoteUser)
    ensures "permissions" !in info ==> u.permissions == JArray([])
  {
    RemoteUser(Get(info, "uuid"), Get(info, "username"), Get(info, "email"),
               GetOr(info, "permissions", JArray([])))
  }

  /** `SimpleRemoteUser.is_authenticated`: every identity built from a token
      is authenticated, whatever its claims. */
  predicate IsAuthenticated(u: RemoteUser)
    ensures IsAuthenticated(u)
  {
    true
  }

  /** `RemoteJWTAuthentication.authenticate`. */
  function Authenticate(header: Option<string>, decode: string -> Decoded): (r: AuthOutcome)
    ensures r.NotAttempted? <==> !HasBearerPrefix(header)
    ensures r.Rejected? <==>
              HasBearerPrefix(header) && !decode(BearerToken(header.value)).Claims?
    ensures r == Rejected(ExpiredDetail) <==>
              HasBearerPrefix(header) && decode(BearerToken(header.value)) == ExpiredSignature
    ensures r.Authenticated? ==> r.auth == None && IsAuthenticated(r.user)
  {
    if !HasBearerPrefix(header) then NotAttempted
    else
      match decode(BearerToken(header.value))
      case ExpiredSignature => Rejected(ExpiredDetail)
      case InvalidToken => Rejected(InvalidDetail)
      case Claims(payload) => Authenticated(NewSimpleRemoteUser(UserInfo(payload)), None)
  }

  /** The identity carries exactly the claims: uuid from `user_id`, username,
      email, and the permissions claim or an empty list when it is absent; a
      missing claim reads as None. */
  lemma {:induction false} IdentityFromClaims(header: string, decode: string -> Decoded, payload: map<string, Json>)
    requires Prefix <= header
    requires decode(BearerToken(header)) == Claims(payload)
    ensures Authenticate(Some(header), decode) ==
              Authenticated(RemoteUser(Get(payload, "user_id"), Get(payload, "username"), Get(payload, "email"),
                                       GetOr(payload, "permissions", JArray([]))), None)
  {
  }

  /** The outcome depends on the header only through its token's decoding:
      two decoders that agree on the token give the same outcome. */
  lemma {:induction false} OnlyTheTokenMatters(header: Option<string>, d1: string -> Decoded, d2: string -> Decoded)
    requires HasBearerPrefix(header) ==> d1(BearerToken(header.value)) == d2(BearerToken(header.value))
    ensures Authenticate(header, d1) == Authenticate(header, d2)
  {
  }

  /** A bearer header whose token does not decode is refused, never treated
      as anonymous, and the refusal says whether the token had expired. */
  lemma {:induction false} BadTokenIsRefused(header: string, decode: string -> Decoded)
    requires Prefix <= header
    requires !decode(BearerToken(header)).Claims?
    ensures Authenticate(Some(header), decode) ==
              Rejected(if decode(BearerToken(header)) == ExpiredSignature then ExpiredDetail else InvalidDetail)
  {
  }
}
