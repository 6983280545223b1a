/** Logout: blacklisting an access token for the rest of its life, and the check of a request. */
module AccessToken {
  import opened Optional
  import opened ExpiringKeys

  datatype Claims = Claims(sub: string, tenantId: string, jti: Option<string>, exp: int)

  /** A token as it decodes (None if it does not) and whether its signature and issuer check out. */
  datatype Token = Token(claims: Option<Claims>, genuine: bool)

  datatype Verdict = Passed(sub: string) | NoBearer | Invalid | Expired | Revoked | TenantMismatch

  function Seconds(ms: int): int { ms / 1000 }

  /** Section 4.1.4 of RFC 7519: not accepted on or after `exp`, in whole seconds. */
  predicate Unexpired(c: Claims, now: int) {
    Seconds(now) < c.exp
  }

  function RemainingTTL(c: Claims, now: int): int {
    if c.exp - Seconds(now) > 0 then c.exp - Seconds(now) else 0
  }

  /** The blacklist key of a claim set; a missing id prints as a template literal prints it. */
  function KeyOf(jti: Option<string>): string { GetOr(jti, "undefined") }

  function Blacklisted(keys: Keys<string, int>, token: Token, tNow: int, tSet: int): Keys<string, int> {
    if token.claims.None? || token.claims.value.jti.None? || token.claims.value.jti.value == "" then keys
    else
      var c := token.claims.value;
      if RemainingTTL(c, tNow) <= 0 then keys
      else SetEx(keys, KeyOf(c.jti), 1, RemainingTTL(c, tNow), tSet)
  }

  /** `authenticateJwt`: the token is verified at `tVerify`, the blacklist read at `tCheck`. */
  function Judge(keys: Keys<string, int>, bearer: Option<Token>, reqTenant: Option<string>,
                 tVerify: int, tCheck: int): Verdict {
    if bearer.None? then NoBearer
    else
      var token := bearer.value;
      if !token.genuine || token.claims.None? then Invalid
      else
        var c := token.claims.value;
        if !Unexpired(c, tVerify) then Expired
        else if Live(keys, KeyOf(c.jti), tCheck) then Revoked
        else if reqTenant.Some? && reqTenant.value != c.tenantId then TenantMismatch
        else Passed(c.sub)
  }

  /** Each verdict's own condition: a token passes exactly if it is there, genuine, decodes, is verified
      before its expiry, is not on the blacklist when that is read, and is used on its own tenant or on
      a request without one; and the first of these to fail is the error. */
  lemma {:induction false} JudgedIff(keys: Keys<string, int>, bearer: Option<Token>, reqTenant: Option<string>,
                                     tVerify: int, tCheck: int)
    ensures var v := Judge(keys, bearer, reqTenant, tVerify, tCheck);
            && (v == NoBearer <==> bearer == None)
            && (v == Invalid <==> bearer.Some? && (!bearer.value.genuine || bearer.value.claims == None))
            && (v != NoBearer && v != Invalid ==>
                  var c := bearer.value.claims.value;
                  var revoked := Live(keys, if c.jti.Some? then c.jti.value else "undefined", tCheck);
                  var foreign := reqTenant.Some? && reqTenant != Some(c.tenantId);
                  && (v == Expired <==> tVerify >= 1000 * c.exp)
                  && (v == Revoked <==> tVerify < 1000 * c.exp && revoked)
                  && (v == TenantMismatch <==> tVerify < 1000 * c.exp && !revoked && foreign)
                  && (v.Passed? <==> tVerify < 1000 * c.exp && !revoked && !foreign)
                  && (v.Passed? ==> v.sub == c.sub))
  {
  }

  /** What a logout puts on the blacklist: the token's id for its remaining whole seconds, nothing if it
      has none or has expired, and no other id. */
  lemma {:induction false} LogoutLists(keys: Keys<string, int>, token: Token, tNow: int, tSet: int, id: string, now: int)
    ensures var listed := token.claims.Some? && token.claims.value.jti == Some(id) && id != ""
                          && tNow < 1000 * token.claims.value.exp;
            Live(Blacklisted(keys, token, tNow, tSet), id, now)
            <==> if listed then now <= tSet + 1000 * (token.claims.value.exp - tNow / 1000) else Live(keys, id, now)
  {
  }

  datatype Logout = Logout(token: Token, tNow: int, tSet: int)

  function AfterLogouts(keys: Keys<string, int>, logouts: seq<Logout>): Keys<string, int>
    decreases |logouts|
  {
    if logouts == [] then keys
    else AfterLogouts(Blacklisted(keys, logouts[0].token, logouts[0].tNow, logouts[0].tSet), logouts[1..])
  }

  /** Ids are unique: a token with this id has this expiry. Its SET follows its clock reading. */
  predicate Genuine(logouts: seq<Logout>, c: Claims) {
    forall i | 0 <= i < |logouts| ::
      && logouts[i].tNow <= logouts[i].tSet
      && (logouts[i].token.claims.Some? && KeyOf(logouts[i].token.claims.value.jti) == KeyOf(c.jti) ==>
            logouts[i].token.claims.value.exp == c.exp)
  }

  /** The second-granular lifetime of a blacklist entry reaches the token's expiry. */
  ghost predicate Covered(keys: Keys<string, int>, c: Claims) {
    KeyOf(c.jti) in keys ==>
      keys[KeyOf(c.jti)].expiresAt.Some? && keys[KeyOf(c.jti)].expiresAt.value >= 1000 * c.exp
  }

  lemma {:induction false} LogoutsCover(keys: Keys<string, int>, logouts: seq<Logout>, c: Claims)
    requires Covered(keys, c) && Genuine(logouts, c)
    ensures Covered(AfterLogouts(keys, logouts), c)
    ensures KeyOf(c.jti) in keys ==> KeyOf(c.jti) in AfterLogouts(keys, logouts)
    decreases |logouts|
  {
    if logouts != [] {
      assert forall i | 0 <= i < |logouts| - 1 :: logouts[1..][i] == logouts[i + 1];
      LogoutsCover(Blacklisted(keys, logouts[0].token, logouts[0].tNow, logouts[0].tSet), logouts[1..], c);
    }
  }

  /** After a token is blacklisted, at any millisecond and whatever is blacklisted later, a
      request with it passes only if it was verified before `exp` but its blacklist check came
      after. So any request whose check is no later than `exp`, in particular one that verifies
      and checks at the same time, is rejected. */
  lemma {:induction false} LoggedOutIsRejected(keys: Keys<string, int>, c: Claims, genuine: bool, tNow: int, tSet: int,
                            later: seq<Logout>, reqTenant: Option<string>, tVerify: int, tCheck: int)
    requires c.jti.Some? && c.jti.value != "" && tNow <= tSet <= tVerify <= tCheck
    requires Covered(keys, c) && Genuine(later, c)
    ensures var token := Token(Some(c), genuine);
            var keys' := AfterLogouts(Blacklisted(keys, token, tNow, tSet), later);
            Judge(keys', Some(token), reqTenant, tVerify, tCheck).Passed? ==> tVerify < 1000 * c.exp < tCheck
  {
    var token := Token(Some(c), genuine);
    var keys1 := Blacklisted(keys, token, tNow, tSet);
    LogoutsCover(keys1, later, c);
  }

  /** The id under which a claim set is looked up. */
  function Printed(c: Claims): string { if c.jti.Some? then c.jti.value else "undefined" }

  lemma {:induction false} OthersKeepKey(keys: Keys<string, int>, logouts: seq<Logout>, id: string)
    requires forall i | 0 <= i < |logouts| && logouts[i].token.claims.Some? :: logouts[i].token.claims.value.jti != Some(id)
    ensures id in AfterLogouts(keys, logouts) <==> id in keys
    ensures id in keys ==> AfterLogouts(keys, logouts)[id] == keys[id]
    decreases |logouts|
  {
    if logouts != [] {
      assert forall i | 0 <= i < |logouts| - 1 :: logouts[1..][i] == logouts[i + 1];
      OthersKeepKey(Blacklisted(keys, logouts[0].token, logouts[0].tNow, logouts[0].tSet), logouts[1..], id);
    }
  }

  /** Logging out tokens of other ids, however many, changes no verdict on this one. */
  lemma {:induction false} OthersLogoutsDoNothing(keys: Keys<string, int>, logouts: seq<Logout>, c: Claims, genuine: bool,
                                                  reqTenant: Option<string>, tVerify: int, tCheck: int)
    requires forall i | 0 <= i < |logouts| && logouts[i].token.claims.Some? ::
               logouts[i].token.claims.value.jti != Some(Printed(c))
    ensures Judge(AfterLogouts(keys, logouts), Some(Token(Some(c), genuine)), reqTenant, tVerify, tCheck)
            == Judge(keys, Some(Token(Some(c), genuine)), reqTenant, tVerify, tCheck)
  {
    OthersKeepKey(keys, logouts, Printed(c));
  }

  /** Exactly when a request slips through after a logout: it is verified while the token lives
      and checked once the blacklist entry has gone. */
  lemma {:induction false} SlipsThroughIff(keys: Keys<string, int>, c: Claims, reqTenant: Option<string>,
                                           tNow: int, tSet: int, tVerify: int, tCheck: int)
    requires c.jti.Some? && c.jti.value != "" && tNow <= tSet <= tVerify <= tCheck && Unexpired(c, tNow)
    ensures var token := Token(Some(c), true);
            Judge(Blacklisted(keys, token, tNow, tSet), Some(token), reqTenant, tVerify, tCheck).Passed?
            <==> tVerify < 1000 * c.exp && tCheck > tSet + 1000 * (c.exp - tNow / 1000)
                 && (reqTenant.None? || reqTenant.value == c.tenantId)
  {
    assert Unexpired(c, tVerify) <==> tVerify < 1000 * c.exp;
  }

  /** It can happen: verified in the token's last millisecond, checked two milliseconds later. */
  lemma {:induction false} SlipsThrough()
    ensures var token := Token(Some(Claims("u", "t", Some("id"), 10)), true);
            Judge(Blacklisted(map[], token, 5_000, 5_000), Some(token), None, 9_999, 10_001) == Passed("u")
  {
    var c := Claims("u", "t", Some("id"), 10);
    SlipsThroughIff(map[], c, None, 5_000, 5_000, 9_999, 10_001);
  }

  /** While Redis is down a logout does nothing and a request is judged as if nothing were blacklisted. */
  class TokenStore {
    var ready: bool
    var keys: Keys<string, int>

    constructor ()
      ensures ready && keys == map[]
    {
      ready, keys := true, map[];
    }

    /** What `isBlacklisted` gets to see. */
    function Visible(): Keys<string, int>
      reads this
    {
      if ready then keys else map[]
    }

    method BlacklistAccessToken(token: Token, tNow: int, tSet: int)
      modifies this`keys
      ensures keys == if ready then Blacklisted(old(keys), token, tNow, tSet) else old(keys)
    {
      if token.claims.None? || token.claims.value.jti.None? || token.claims.value.jti.value == "" {
        return;
      }
      var decoded := token.claims.value;
      var ttl := RemainingTTL(decoded, tNow);
      if ttl <= 0 {
        return;
      }
      if ready {
        keys := SetEx(keys, KeyOf(decoded.jti), 1, ttl, tSet);
      }
    }

    method IsBlacklisted(jti: Option<string>, now: int) returns (result: bool)
      ensures result <==> ready && Live(keys, KeyOf(jti), now)
    {
      result := ready && Live(keys, KeyOf(jti), now);
    }

    /** The middleware: `None` is a request without a Bearer header. */
    method AuthenticateJwt(bearer: Option<Token>, reqTenant: Option<string>, tVerify: int, tCheck: int)
      returns (verdict: Verdict)
      ensures verdict == Judge(Visible(), bearer, reqTenant, tVerify, tCheck)
      ensures verdict.Passed? <==>
                && bearer.Some? && bearer.value.genuine && bearer.value.claims.Some?
                && var c := bearer.value.claims.value;
                   && tVerify < 1000 * c.exp && (ready ==> !Live(keys, Printed(c), tCheck))
                   && (reqTenant.Some? ==> reqTenant.value == c.tenantId)
      ensures verdict.Passed? ==> verdict.sub == bearer.value.claims.value.sub
    {
      if bearer.None? {
        return NoBearer;
      }
      var token := bearer.value;
      if !token.genuine || token.claims.None? {
        return Invalid;
      }
      var payload := token.claims.value;
      if !Unexpired(payload, tVerify) {
        return Expired;
      }
      var isBlacklisted := IsBlacklisted(payload.jti, tCheck);
      if isBlacklisted {
        return Revoked;
      }
      if reqTenant.Some? && reqTenant.value != payload.tenantId {
        return TenantMismatch;
      }
      verdict := Passed(payload.sub);
    }
  }
}
