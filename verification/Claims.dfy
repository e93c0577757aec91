/** Token claims: what is checked before a token is issued and when it is verified. */
module Claims {
  import opened Common
  import opened Redis

  datatype JwtError =
    UnprocessableEntity | StoreError | BadSignature | NotValid | Broken | KeyError | Serialization

  datatype Json = JString(text: string) | JNumber(number: nat) | JStrings(texts: seq<string>) | JOther(raw: string)

  /** One `"name": value` member of a JSON object. */
  datatype Field = Field(name: string, value: Json)

  /** `extra` is a JSON map: its members in order, with distinct names. */
  datatype TokenClaims = TokenClaims(
    iss: string, sub: string, aud: seq<string>, exp: nat, iat: nat, nbf: nat, jti: Id, extra: seq<Field>)

  const RESERVED_CLAIMS := ["iss", "sub", "aud", "exp", "iat", "nbf", "jti"]

  /** The settings token issue reads from the environment. */
  datatype Config = Config(
    ttlMin: nat,
    ttlMax: nat,
    accessTtl: Option<nat>,
    refreshTtl: nat,
    claimsMaxCount: nat,
    claimsMaxBytes: nat,
    jsonSize: seq<Field> -> nat)

  predicate CustomClaimsOk(cfg: Config, extra: seq<Field>) {
    extra == [] ||
    (|extra| <= cfg.claimsMaxCount
     && (forall i :: 0 <= i < |extra| ==> extra[i].name !in RESERVED_CLAIMS)
     && cfg.jsonSize(extra) <= cfg.claimsMaxBytes)
  }

  /** The lifetime an issue request gets, or `None` when it is out of bounds or not configured. */
  function Lifetime(cfg: Config, requested: Option<nat>): Option<nat> {
    match requested
    case Some(ttl) => if cfg.ttlMin <= ttl <= cfg.ttlMax then Some(ttl) else None
    case None => cfg.accessTtl
  }

  /** The part of issuing that comes before the store: claims without a `jti`, and their lifetime. */
  function Draft(cfg: Config, issuer: string, subject: string, audience: seq<string>, ttl: Option<nat>,
                 extra: seq<Field>, now: nat): Option<(TokenClaims, nat)>
  {
    if !CustomClaimsOk(cfg, extra) then None
    else match Lifetime(cfg, ttl)
      case None => None
      case Some(life) =>
        if audience == [] then None
        else Some((TokenClaims(issuer, subject, audience, Secs(now) + life, Secs(now), Secs(now), "", extra), life))
  }

  /** `is_verify` up to the store lookup. */
  predicate ClaimsValid(claims: TokenClaims, issuer: string, audience: string, now: nat) {
    claims.iss == issuer && audience in claims.aud
    && claims.nbf <= Secs(now) && claims.iat <= Secs(now) && Secs(now) < claims.exp
  }

  /** When claims are valid: for their issuer and each of their audiences, from the later of the two seconds `nbf` and `iat`
    * until second `exp` begins. */
  lemma ValidSpan(claims: TokenClaims, issuer: string, audience: string, now: nat)
    ensures ClaimsValid(claims, issuer, audience, now) <==>
              claims.iss == issuer && audience in claims.aud
              && claims.nbf * 1000 <= now && claims.iat * 1000 <= now && now < claims.exp * 1000
  {
  }

  /** `is_verify` evaluated at one instant. */
  predicate Verifies(db: Db, claims: TokenClaims, issuer: string, audience: string, now: nat) {
    ClaimsValid(claims, issuer, audience, now) && claims.jti in db.jtis
  }
}
