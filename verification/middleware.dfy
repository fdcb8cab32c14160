/** `RemoteJWTMiddleware.process_request` of the resource service: per request,
    read the bearer token, look its identity up in the shared cache and, on a
    miss, ask the issuing service's `/api/account/me/` endpoint once. Only a
    200 reply is cached; a failure yields no identity and is not cached, and
    nothing the upstream does stops the request. */
module RemoteMiddleware {
  import opened Wrappers
  import opened JsonValue
  import opened BearerHeader

  /** What the identity endpoint does for one call: a status with a body that
      parsed as JSON (`None` when `res.json()` raised), or a raised transport
      error such as the five-second timeout. */
  datatype UpstreamReply = Reply(status: int, body: Option<Json>) | TransportFailure

  /** `f"user_jwt:{token}"` */
  function CacheKey(token: string): (key: string)
    ensures "user_jwt:" <= key
    ensures |key| == |token| + 9 && key[9..] == token
  {
    "user_jwt:" + token
  }

  /** Distinct tokens never share a cache entry. */
  lemma {:induction false} CacheKeyInjective(a: string, b: string)
    requires CacheKey(a) == CacheKey(b)
    ensures a == b
  {
  }

  /** `cache.get(key)` gave a truthy value: the identity is served from cache. */
  predicate CachedIdentity(cache: map<string, Json>, key: string) {
    key in cache && Truthy(cache[key])
  }

  /** The upstream produced an identity that is attached and cached. */
  predicate Resolved(reply: UpstreamReply) {
    reply.Reply? && reply.status == 200 && reply.body.Some?
  }

  class RemoteJwtMiddleware {
    /** The shared Django cache, restricted to the `user_jwt:` entries. */
    var cache: map<string, Json>
    /** The `Authorization` headers sent to the identity endpoint, in order. */
    ghost var sent: seq<string>

    constructor ()
      ensures cache == map[] && sent == []
    {
      cache := map[];
      sent := [];
    }

    /** One request through the middleware. The results are what it sets as
        `request.jwt_token` and `request.jwt_user_data` (None is `JNull`);
        `upstream` is what the identity endpoint would do if called. */
    method ProcessRequest(authHeader: Option<string>, upstream: UpstreamReply)
      returns (jwtToken: Option<string>, jwtUserData: Json)
      modifies this
      ensures !HasBearerPrefix(authHeader) ==>
                jwtToken == None && jwtUserData == JNull && cache == old(cache) && sent == old(sent)
      ensures HasBearerPrefix(authHeader) ==>
                var token := BearerToken(authHeader.value);
                var key := CacheKey(token);
                && jwtToken == Some(token)
                && (CachedIdentity(old(cache), key) ==>
                      jwtUserData == old(cache)[key] && cache == old(cache) && sent == old(sent))
                && (!CachedIdentity(old(cache), key) ==>
                      && sent == old(sent) + [Prefix + token]
                      && (Resolved(upstream) ==>
                            jwtUserData == upstream.body.value && cache == old(cache)[key := upstream.body.value])
                      && (!Resolved(upstream) ==> jwtUserData == JNull && cache == old(cache)))
    {
      if !HasBearerPrefix(authHeader) {
        jwtToken := None;
        jwtUserData := JNull;
        return;
      }
      var token := BearerToken(authHeader.value);
      jwtToken := Some(token);
      var key := CacheKey(token);
      var userData := if key in cache then cache[key] else JNull;
      if !Truthy(userData) {
        sent := sent + [Prefix + token];
        match upstream
        case Reply(status, body) =>
          if status == 200 && body.Some? {
            userData := body.value;
            cache := cache[key := userData];
          } else {
            userData := JNull;
          }
        case TransportFailure =>
          userData := JNull;
      }
      jwtUserData := userData;
    }
  }

  /** Two requests with the same token, the first resolved upstream to a
      truthy identity: the second is answered from the cache, with no second
      upstream call, whatever the upstream would now say. */
  method RepeatedTokenHitsCache(mw: RemoteJwtMiddleware, header: string, identity: Json, later: UpstreamReply)
    returns (first: Json, second: Json)
    requires Prefix <= header
    requires Truthy(identity)
    modifies mw
    ensures first == second
    ensures |mw.sent| <= |old(mw.sent)| + 1
  {
    var t1, t2;
    t1, first := mw.ProcessRequest(Some(header), Reply(200, Some(identity)));
    var calls := |mw.sent|;
    t2, second := mw.ProcessRequest(Some(header), later);
    assert |mw.sent| == calls;
  }

  /** A failed resolution is retried by the next request with the same token,
      because nothing was cached for it. */
  method FailureIsNotCached(mw: RemoteJwtMiddleware, header: string, status: int, later: UpstreamReply)
    returns (first: Json, second: Json)
    requires Prefix <= header
    requires status != 200
    requires !CachedIdentity(mw.cache, CacheKey(BearerToken(header)))
    modifies mw
    ensures first == JNull
    ensures mw.sent == old(mw.sent) + [Prefix + BearerToken(header), Prefix + BearerToken(header)]
    ensures Resolved(later) ==> second == later.body.value
  {
    var t1, t2;
    t1, first := mw.ProcessRequest(Some(header), Reply(status, None));
    t2, second := mw.ProcessRequest(Some(header), later);
  }
}
