/** A token as text: three dot-separated segments, signed on issue and checked on verification.
  *
  * JSON, base64url and signatures are parameters with their usual laws.
  */
module TokenText {
  import opened Common
  import opened Text
  import opened Redis
  import opened Claims

  // ---- Custom claims beside the registered ones ----

  /** `validate_custom_claims`. */
  method ValidateCustomClaims(cfg: Config, extra: seq<Field>) returns (r: Result<(), JwtError>)
    ensures r.Ok? <==>
              extra == []
              || (|extra| <= cfg.claimsMaxCount && cfg.jsonSize(extra) <= cfg.claimsMaxBytes
                  && forall i :: 0 <= i < |extra| ==> extra[i].name !in ["iss", "sub", "aud", "exp", "iat", "nbf", "jti"])
    ensures r.Ok? <==> CustomClaimsOk(cfg, extra)
    ensures r.Err? ==> r.error == UnprocessableEntity
  {
    if extra == [] {
      return Ok(());
    }
    if |extra| > cfg.claimsMaxCount {
      return Err(UnprocessableEntity);
    }
    var i := 0;
    while i < |extra|
      invariant i <= |extra|
      invariant forall j :: 0 <= j < i ==> extra[j].name !in RESERVED_CLAIMS
    {
      if extra[i].name in RESERVED_CLAIMS {
        return Err(UnprocessableEntity);
      }
      i := i + 1;
    }
    if cfg.jsonSize(extra) > cfg.claimsMaxBytes {
      return Err(UnprocessableEntity);
    }
    r := Ok(());
  }

  /** No custom claim overrides a registered one. */
  predicate NoReserved(extra: seq<Field>) {
    forall i :: 0 <= i < |extra| ==> extra[i].name !in RESERVED_CLAIMS
  }

  function Registered(c: TokenClaims): seq<Field> {
    [Field("iss", JString(c.iss)), Field("sub", JString(c.sub)), Field("aud", JStrings(c.aud)),
     Field("exp", JNumber(c.exp)), Field("iat", JNumber(c.iat)), Field("nbf", JNumber(c.nbf)),
     Field("jti", JString(c.jti))]
  }

  /** The payload members: the custom claims are flattened in beside the registered ones. */
  function Flatten(c: TokenClaims): seq<Field> {
    Registered(c) + c.extra
  }

  /** The values given to a name, in order. */
  function ValuesOf(fields: seq<Field>, name: string): seq<Json> {
    if fields == [] then []
    else (if fields[0].name == name then [fields[0].value] else []) + ValuesOf(fields[1..], name)
  }

  /** The members that are not registered claims. */
  function Others(fields: seq<Field>): seq<Field> {
    if fields == [] then []
    else (if fields[0].name in RESERVED_CLAIMS then [] else [fields[0]]) + Others(fields[1..])
  }

  /** The value of a name that is given exactly once. */
  function Single(fields: seq<Field>, name: string): Option<Json> {
    var values := ValuesOf(fields, name);
    if |values| == 1 then Some(values[0]) else None
  }

  /** Registered claims of their types, in the order of `RESERVED_CLAIMS`. */
  function Typed(v: seq<Json>, extra: seq<Field>): Option<TokenClaims>
    requires |v| == 7
  {
    if v[0].JString? && v[1].JString? && v[2].JStrings? && v[3].JNumber? && v[4].JNumber? && v[5].JNumber? && v[6].JString?
    then Some(TokenClaims(v[0].text, v[1].text, v[2].texts, v[3].number, v[4].number, v[5].number, v[6].text, extra))
    else None
  }

  /** The values of the registered claims, if each is given exactly once. */
  function Required(fields: seq<Field>, n: nat): (v: Option<seq<Json>>)
    requires n <= 7
    ensures v.Some? ==> |v.value| == n
  {
    if n == 0 then Some([])
    else
      var before, last := Required(fields, n - 1), Single(fields, RESERVED_CLAIMS[n - 1]);
      if before.None? || last.None? then None else Some(before.value + [last.value])
  }

  /** Reading a payload: every registered claim exactly once and of its type, the rest is `extra`. */
  function Unflatten(fields: seq<Field>): Option<TokenClaims> {
    match Required(fields, 7)
    case None => None
    case Some(v) => Typed(v, Others(fields))
  }

  /** A payload reads exactly when each registered claim is given once and has its type; the values are then the claims, and
    * the members with other names are the custom claims. */
  lemma ReadsIff(fields: seq<Field>)
    ensures Unflatten(fields).Some? <==>
              && (forall name :: name in ["iss", "sub", "jti"] ==> |ValuesOf(fields, name)| == 1 && ValuesOf(fields, name)[0].JString?)
              && (forall name :: name in ["exp", "iat", "nbf"] ==> |ValuesOf(fields, name)| == 1 && ValuesOf(fields, name)[0].JNumber?)
              && |ValuesOf(fields, "aud")| == 1 && ValuesOf(fields, "aud")[0].JStrings?
    ensures Unflatten(fields).Some? ==> var c := Unflatten(fields).value;
              && ValuesOf(fields, "iss") == [JString(c.iss)] && ValuesOf(fields, "sub") == [JString(c.sub)]
              && ValuesOf(fields, "aud") == [JStrings(c.aud)] && ValuesOf(fields, "exp") == [JNumber(c.exp)]
              && ValuesOf(fields, "iat") == [JNumber(c.iat)] && ValuesOf(fields, "nbf") == [JNumber(c.nbf)]
              && ValuesOf(fields, "jti") == [JString(c.jti)] && c.extra == Others(fields)
  {
    RequiredIff(fields, 7);
  }

  lemma {:induction false} RequiredIff(fields: seq<Field>, n: nat)
    requires n <= 7
    ensures Required(fields, n).Some? <==> forall k :: 0 <= k < n ==> |ValuesOf(fields, RESERVED_CLAIMS[k])| == 1
    ensures Required(fields, n).Some? ==> forall k :: 0 <= k < n ==> ValuesOf(fields, RESERVED_CLAIMS[k]) == [Required(fields, n).value[k]]
  {
    if n > 0 {
      RequiredIff(fields, n - 1);
    }
  }

  lemma {:induction false} ValuesSplit(a: seq<Field>, b: seq<Field>, name: string)
    ensures ValuesOf(a + b, name) == ValuesOf(a, name) + ValuesOf(b, name)
  {
    if a == [] {
      assert a + b == b;
    } else {
      assert (a + b)[1..] == a[1..] + b;
      ValuesSplit(a[1..], b, name);
      Associative(if a[0].name == name then [a[0].value] else [], ValuesOf(a[1..], name), ValuesOf(b, name));
    }
  }

  lemma {:induction false} OthersSplit(a: seq<Field>, b: seq<Field>)
    ensures Others(a + b) == Others(a) + Others(b)
  {
    if a == [] {
      assert a + b == b;
    } else {
      assert (a + b)[1..] == a[1..] + b;
      OthersSplit(a[1..], b);
      Associative(if a[0].name in RESERVED_CLAIMS then [] else [a[0]], Others(a[1..]), Others(b));
    }
  }

  lemma {:induction false} ValuesNone(fields: seq<Field>, name: string)
    ensures ValuesOf(fields, name) == [] <==> forall i :: 0 <= i < |fields| ==> fields[i].name != name
  {
    if fields != [] {
      ValuesNone(fields[1..], name);
      if ValuesOf(fields, name) == [] {
        forall i | 0 <= i < |fields| ensures fields[i].name != name {
          assert i > 0 ==> fields[i] == fields[1..][i - 1];
        }
      }
    }
  }

  lemma {:induction false} OthersAll(fields: seq<Field>)
    requires forall i :: 0 <= i < |fields| ==> fields[i].name !in RESERVED_CLAIMS
    ensures Others(fields) == fields
  {
    if fields != [] {
      OthersAll(fields[1..]);
      assert fields == [fields[0]] + fields[1..];
    }
  }

  lemma {:induction false} OthersNone(fields: seq<Field>)
    requires forall i :: 0 <= i < |fields| ==> fields[i].name in RESERVED_CLAIMS
    ensures Others(fields) == []
  {
    if fields != [] {
      OthersNone(fields[1..]);
    }
  }

  /** Where names are distinct, each has its one value. */
  lemma {:induction false} DistinctValues(fields: seq<Field>, k: nat)
    requires k < |fields|
    requires forall i, j :: 0 <= i < j < |fields| ==> fields[i].name != fields[j].name
    ensures ValuesOf(fields, fields[k].name) == [fields[k].value]
  {
    if k == 0 {
      ValuesNone(fields[1..], fields[0].name);
    } else {
      assert forall i, j :: 0 <= i < j < |fields[1..]| ==> fields[1..][i].name == fields[i + 1].name != fields[j + 1].name == fields[1..][j].name;
      DistinctValues(fields[1..], k - 1);
      assert fields[1..][k - 1] == fields[k];
    }
  }

  lemma ReservedDistinct()
    ensures forall i, j :: 0 <= i < j < 7 ==> RESERVED_CLAIMS[i] != RESERVED_CLAIMS[j]
  {
    assert forall k :: 0 <= k < 7 ==> |RESERVED_CLAIMS[k]| == 3;
  }

  lemma RegisteredNames(c: TokenClaims)
    ensures |Registered(c)| == 7
    ensures forall k :: 0 <= k < 7 ==> Registered(c)[k].name == RESERVED_CLAIMS[k]
  {
  }

  /** A registered claim is read back exactly when no custom claim has its name. */
  lemma FlattenSingle(c: TokenClaims, k: nat)
    requires k < 7
    ensures Single(Flatten(c), RESERVED_CLAIMS[k]) ==
            if exists i :: 0 <= i < |c.extra| && c.extra[i].name == RESERVED_CLAIMS[k] then None
            else Some(Registered(c)[k].value)
  {
    var name := RESERVED_CLAIMS[k];
    RegisteredNames(c);
    ReservedDistinct();
    DistinctValues(Registered(c), k);
    ValuesSplit(Registered(c), c.extra, name);
    ValuesNone(c.extra, name);
  }

  lemma {:induction false} RequiredClash(c: TokenClaims, k: nat, n: nat)
    requires k < n <= 7 && exists i :: 0 <= i < |c.extra| && c.extra[i].name == RESERVED_CLAIMS[k]
    ensures Required(Flatten(c), n) == None
  {
    if k == n - 1 {
      FlattenSingle(c, k);
    } else {
      RequiredClash(c, k, n - 1);
    }
  }

  function RegisteredValues(c: TokenClaims): seq<Json> {
    [JString(c.iss), JString(c.sub), JStrings(c.aud), JNumber(c.exp), JNumber(c.iat), JNumber(c.nbf), JString(c.jti)]
  }

  lemma RegisteredValue(c: TokenClaims, k: nat)
    requires k < 7
    ensures Registered(c)[k].value == RegisteredValues(c)[k]
  {
  }

  lemma {:induction false} RequiredClean(c: TokenClaims, n: nat)
    requires n <= 7 && NoReserved(c.extra)
    ensures Required(Flatten(c), n) == Some(RegisteredValues(c)[..n])
  {
    if n > 0 {
      RequiredClean(c, n - 1);
      FlattenSingle(c, n - 1);
      RegisteredValue(c, n - 1);
      assert RESERVED_CLAIMS[n - 1] in RESERVED_CLAIMS;
      assert RegisteredValues(c)[..n] == RegisteredValues(c)[..n - 1] + [RegisteredValues(c)[n - 1]];
    }
  }

  lemma OthersFlattened(c: TokenClaims)
    requires NoReserved(c.extra)
    ensures Others(Flatten(c)) == c.extra
  {
    RegisteredNames(c);
    OthersSplit(Registered(c), c.extra);
    forall i | 0 <= i < |Registered(c)| ensures Registered(c)[i].name in RESERVED_CLAIMS {
      assert Registered(c)[i].name == RESERVED_CLAIMS[i];
    }
    OthersNone(Registered(c));
    OthersAll(c.extra);
  }

  /** Flattening loses nothing exactly when no custom claim has a reserved name, which is what
    * `validate_custom_claims` is there for; otherwise nothing is read at all. */
  lemma FlattenInvertibleIff(c: TokenClaims)
    ensures Unflatten(Flatten(c)) == if NoReserved(c.extra) then Some(c) else None
  {
    if NoReserved(c.extra) {
      RequiredClean(c, 7);
      OthersFlattened(c);
      assert RegisteredValues(c)[..7] == RegisteredValues(c);
    } else {
      var i :| 0 <= i < |c.extra| && c.extra[i].name in RESERVED_CLAIMS;
      var k :| 0 <= k < 7 && RESERVED_CLAIMS[k] == c.extra[i].name;
      RequiredClash(c, k, 7);
    }
  }

  /** Whatever claims an issue request gets through, the payload of its token reads back as them. */
  lemma IssuedPayloadReadsBack(cfg: Config, issuer: string, subject: string, audience: seq<string>, ttl: Option<nat>,
                               extra: seq<Field>, now: nat, jti: Id)
    requires Draft(cfg, issuer, subject, audience, ttl, extra, now).Some?
    ensures var c := Draft(cfg, issuer, subject, audience, ttl, extra, now).value.0.(jti := jti);
            c.extra == extra && NoReserved(extra) && Unflatten(Flatten(c)) == Some(c)
  {
    FlattenInvertibleIff(Draft(cfg, issuer, subject, audience, ttl, extra, now).value.0.(jti := jti));
  }

  // ---- Segments ----

  datatype TokenHeaders = TokenHeaders(alg: string, kid: string, typ: string, jku: Option<string>)

  const SUPPORTED_ALGORITHMS := ["RS256", "RS384", "RS512", "ES256", "ES384", "ES512", "EdDSA"]

  predicate HeadersValid(h: TokenHeaders, jku: Option<string>) {
    h.alg in SUPPORTED_ALGORITHMS && h.jku == jku && h.typ == "JWT"
  }

  datatype Digest = Sha256 | Sha384 | Sha512 | NoDigest

  /** The digest the signer uses. */
  function SigningDigest(alg: string): Digest {
    if alg in ["RS256", "ES256"] then Sha256
    else if alg in ["RS384", "ES384"] then Sha384
    else if alg in ["RS512", "ES512"] then Sha512
    else NoDigest
  }

  /** The digest the verifier uses. */
  function VerifyingDigest(alg: string): Digest {
    if alg == "RS256" || alg == "ES256" then Sha256
    else if alg == "RS384" || alg == "ES384" then Sha384
    else if alg == "RS512" || alg == "ES512" then Sha512
    else NoDigest
  }

  /** Both sides take the digest the algorithm is named after, and EdDSA takes none. */
  lemma DigestsAgree(alg: string)
    requires alg in SUPPORTED_ALGORITHMS
    ensures SigningDigest(alg) == VerifyingDigest(alg)
    ensures SigningDigest(alg) == if |alg| != 5 || alg == "EdDSA" then NoDigest
              else if alg[2..] == "256" then Sha256 else if alg[2..] == "384" then Sha384 else Sha512
    ensures alg == "EdDSA" || alg[2..] in ["256", "384", "512"]
  {
    var i :| 0 <= i < 7 && alg == SUPPORTED_ALGORITHMS[i];
  }

  datatype PrivateKey = PrivateKey(secret: string)

  datatype PublicKey = PublicKey(point: string)

  /** What the service takes from its libraries. */
  datatype Crypto = Crypto(
    encode: string -> string,
    decode: string -> Option<string>,
    headerText: TokenHeaders -> string,
    readHeader: string -> Option<TokenHeaders>,
    objectText: seq<Field> -> string,
    readObject: string -> Option<seq<Field>>,
    publicOf: PrivateKey -> PublicKey,
    sign: (Digest, PrivateKey, string) -> Option<string>,
    verify: (Digest, PublicKey, string, string) -> Option<bool>)
  {
    /** Every codec reads what it wrote, base64url has no dots, and signatures verify. */
    ghost predicate Lawful() {
      && (forall s :: decode(encode(s)) == Some(s) && '.' !in encode(s))
      && (forall h :: readHeader(headerText(h)) == Some(h))
      && (forall o :: readObject(objectText(o)) == Some(o))
      && (forall d, k, m :: sign(d, k, m).Some? ==> verify(d, publicOf(k), sign(d, k, m).value, m) == Some(true))
    }
  }

  function HeaderSegment(x: Crypto, h: TokenHeaders): string {
    x.encode(x.headerText(h))
  }

  function ClaimsSegment(x: Crypto, c: TokenClaims): string {
    x.encode(x.objectText(Flatten(c)))
  }

  function SigningInput(x: Crypto, h: TokenHeaders, c: TokenClaims): string {
    HeaderSegment(x, h) + "." + ClaimsSegment(x, c)
  }

  /** `to_string`. */
  function ToString(x: Crypto, h: TokenHeaders, c: TokenClaims, key: PrivateKey): Result<string, JwtError> {
    match x.sign(SigningDigest(h.alg), key, SigningInput(x, h, c))
    case None => Err(BadSignature)
    case Some(signature) => Ok(SigningInput(x, h, c) + "." + x.encode(signature))
  }

  /** The first three segments; more are ignored. */
  function Segments(token: string): Option<(string, string, string)> {
    match SplitOnce(token, '.')
    case None => None
    case Some(first) =>
      match SplitOnce(first.1, '.')
      case None => None
      case Some(second) =>
        var third := SplitOnce(second.1, '.');
        Some((first.0, second.0, if third.Some? then third.value.0 else second.1))
  }

  function ReadHeader(x: Crypto, segment: string): Option<TokenHeaders> {
    match x.decode(segment)
    case None => None
    case Some(text) => x.readHeader(text)
  }

  function ReadClaims(x: Crypto, segment: string): Option<TokenClaims> {
    match x.decode(segment)
    case None => None
    case Some(text) =>
      match x.readObject(text)
      case None => None
      case Some(fields) => Unflatten(fields)
  }

  /** `from_string`, with the key lookup, the store and the clock as they are at one instant. */
  function FromString(x: Crypto, token: string, issuer: string, audience: string, keys: string -> Option<PublicKey>,
                      jku: Option<string>, db: Db, now: nat): Result<(TokenHeaders, TokenClaims), JwtError>
  {
    var segments := Segments(token);
    if segments.None? then Err(Broken)
    else
      var (h, c, s) := segments.value;
      var headers := ReadHeader(x, h);
      if headers.None? then Err(Broken)
      else
        var key := keys(headers.value.kid);
        var signature := x.decode(s);
        if key.None? then Err(BadSignature)
        else if signature.None? then Err(Broken)
        else if x.verify(VerifyingDigest(headers.value.alg), key.value, signature.value, h + "." + c) != Some(true) then Err(BadSignature)
        else
          var claims := ReadClaims(x, c);
          if claims.None? then Err(Broken)
          else if HeadersValid(headers.value, jku) && Verifies(db, claims.value, issuer, audience, now)
          then Ok((headers.value, claims.value))
          else Err(NotValid)
  }

  /** Dot-free segments are read back as they were written. */
  lemma SegmentsOf(h: string, c: string, s: string)
    requires '.' !in h && '.' !in c && '.' !in s
    ensures Segments(h + "." + c + "." + s) == Some((h, c, s))
  {
    assert h + "." + c + "." + s == h + "." + (c + "." + s);
    FirstSeparator(h, c + "." + s, '.');
    FirstSeparator(c, s, '.');
  }

  /** What follows the third segment is ignored, and two are not enough. */
  lemma SegmentsAround(h: string, c: string, s: string, more: string)
    requires '.' !in h && '.' !in c && '.' !in s
    ensures Segments(h + "." + (c + "." + (s + "." + more))) == Some((h, c, s))
    ensures Segments(h + "." + c) == None && Segments(h) == None
  {
    FirstSeparator(h, c + "." + (s + "." + more), '.');
    FirstSeparator(c, s + "." + more, '.');
    FirstSeparator(s, more, '.');
    FirstSeparator(h, c, '.');
  }

  lemma ReadBack(x: Crypto, h: TokenHeaders, c: TokenClaims)
    requires x.Lawful() && NoReserved(c.extra)
    ensures ReadHeader(x, HeaderSegment(x, h)) == Some(h) && '.' !in HeaderSegment(x, h)
    ensures ReadClaims(x, ClaimsSegment(x, c)) == Some(c) && '.' !in ClaimsSegment(x, c)
  {
    FlattenInvertibleIff(c);
  }

  /** Which headers are accepted. */
  lemma HeadersExact(h: TokenHeaders, jku: Option<string>)
    ensures HeadersValid(h, jku) <==>
              h.alg in ["RS256", "RS384", "RS512", "ES256", "ES384", "ES512", "EdDSA"] && h.typ == "JWT" && h.jku == jku
  {
  }

  /** The header and the signature of a token check out under the key its `kid` resolves to. */
  predicate Signed(x: Crypto, token: string, keys: string -> Option<PublicKey>) {
    Segments(token).Some?
    && var (h, c, s) := Segments(token).value;
       && ReadHeader(x, h).Some? && keys(ReadHeader(x, h).value.kid).Some? && x.decode(s).Some?
       && x.verify(VerifyingDigest(ReadHeader(x, h).value.alg), keys(ReadHeader(x, h).value.kid).value, x.decode(s).value, h + "." + c) == Some(true)
  }

  /** What `from_string` makes of segments that read and a signature that verifies. */
  lemma SignedReads(x: Crypto, token: string, issuer: string, audience: string, keys: string -> Option<PublicKey>,
                    jku: Option<string>, db: Db, now: nat, h: TokenHeaders, c: TokenClaims)
    requires Signed(x, token, keys)
    requires ReadHeader(x, Segments(token).value.0) == Some(h) && ReadClaims(x, Segments(token).value.1) == Some(c)
    ensures FromString(x, token, issuer, audience, keys, jku, db, now)
            == if HeadersValid(h, jku) && Verifies(db, c, issuer, audience, now) then Ok((h, c)) else Err(NotValid)
  {
  }

  lemma IssuedSigned(x: Crypto, h: TokenHeaders, c: TokenClaims, key: PrivateKey, keys: string -> Option<PublicKey>)
    requires x.Lawful() && ToString(x, h, c, key).Ok?
    requires NoReserved(c.extra) && keys(h.kid) == Some(x.publicOf(key))
    ensures var token := ToString(x, h, c, key).value;
      Signed(x, token, keys) && ReadHeader(x, Segments(token).value.0) == Some(h) && ReadClaims(x, Segments(token).value.1) == Some(c)
  {
    var signature := x.sign(SigningDigest(h.alg), key, SigningInput(x, h, c)).value;
    assert '.' !in x.encode(signature);
    ReadBack(x, h, c);
    SegmentsOf(HeaderSegment(x, h), ClaimsSegment(x, c), x.encode(signature));
    assert SigningDigest(h.alg) == VerifyingDigest(h.alg);
  }

  lemma IssuedReads(x: Crypto, h: TokenHeaders, c: TokenClaims, key: PrivateKey, issuer: string, audience: string,
                    keys: string -> Option<PublicKey>, jku: Option<string>, db: Db, now: nat)
    requires x.Lawful() && ToString(x, h, c, key).Ok?
    requires NoReserved(c.extra) && keys(h.kid) == Some(x.publicOf(key))
    ensures FromString(x, ToString(x, h, c, key).value, issuer, audience, keys, jku, db, now)
            == if HeadersValid(h, jku) && Verifies(db, c, issuer, audience, now) then Ok((h, c)) else Err(NotValid)
  {
    IssuedSigned(x, h, c, key, keys);
    SignedReads(x, ToString(x, h, c, key).value, issuer, audience, keys, jku, db, now, h, c);
  }

  /** Issue then verify: a token the service signed, under a `kid` that still resolves to its key, is read back with its
    * header and claims exactly when the algorithm is supported, the type is JWT, the key set address is the current
    * one and the claims are live; otherwise it is not valid. */
  lemma IssueThenVerify(x: Crypto, h: TokenHeaders, c: TokenClaims, key: PrivateKey, issuer: string, audience: string,
                        keys: string -> Option<PublicKey>, jku: Option<string>, db: Db, now: nat)
    requires x.Lawful() && ToString(x, h, c, key).Ok?
    requires NoReserved(c.extra)
    requires keys(h.kid) == Some(x.publicOf(key))
    ensures FromString(x, ToString(x, h, c, key).value, issuer, audience, keys, jku, db, now)
            == if h.alg in ["RS256", "RS384", "RS512", "ES256", "ES384", "ES512", "EdDSA"] && h.typ == "JWT" && h.jku == jku
                  && Verifies(db, c, issuer, audience, now)
               then Ok((h, c)) else Err(NotValid)
  {
    IssuedReads(x, h, c, key, issuer, audience, keys, jku, db, now);
    HeadersExact(h, jku);
  }

  /** Which error a refused token gets: not valid exactly when it is signed and its claims read, a bad signature exactly when
    * its key does not resolve or a readable signature does not verify, and broken for what does not read. */
  lemma RefusedWith(x: Crypto, token: string, issuer: string, audience: string, keys: string -> Option<PublicKey>,
                    jku: Option<string>, db: Db, now: nat)
    requires FromString(x, token, issuer, audience, keys, jku, db, now).Err?
    ensures var error := FromString(x, token, issuer, audience, keys, jku, db, now).error;
      && (error == NotValid <==> Signed(x, token, keys) && ReadClaims(x, Segments(token).value.1).Some?)
      && (error == BadSignature <==>
            !Signed(x, token, keys) && Segments(token).Some? && ReadHeader(x, Segments(token).value.0).Some?
            && (keys(ReadHeader(x, Segments(token).value.0).value.kid).None? || x.decode(Segments(token).value.2).Some?))
      && (error == NotValid || error == BadSignature || error == Broken)
  {
  }

  /** The text is the signing input of an issued token. */
  ghost predicate IssuedInput(x: Crypto, issued: set<(TokenHeaders, TokenClaims)>, m: string) {
    exists t :: t in issued && m == SigningInput(x, t.0, t.1)
  }

  /** A key that verifies signing inputs of issued tokens only. */
  ghost predicate Unforgeable(x: Crypto, issued: set<(TokenHeaders, TokenClaims)>, key: PublicKey) {
    forall d, s, m :: x.verify(d, key, s, m) == Some(true) ==> IssuedInput(x, issued, m)
  }

  /** Segments that make up an issued signing input read as that token. */
  lemma InputReadBack(x: Crypto, issued: set<(TokenHeaders, TokenClaims)>, h: string, c: string)
    requires x.Lawful() && '.' !in h && IssuedInput(x, issued, h + "." + c)
    requires forall t :: t in issued ==> NoReserved(t.1.extra)
    ensures ReadHeader(x, h).Some? && ReadClaims(x, c).Some?
    ensures (ReadHeader(x, h).value, ReadClaims(x, c).value) in issued
  {
    var t :| t in issued && h + "." + c == SigningInput(x, t.0, t.1);
    ReadBack(x, t.0, t.1);
    SameSplit(h, c, HeaderSegment(x, t.0), ClaimsSegment(x, t.1));
  }

  /** What an accepted token has been through. */
  lemma AcceptedVerified(x: Crypto, token: string, issuer: string, audience: string, keys: string -> Option<PublicKey>,
                         jku: Option<string>, db: Db, now: nat)
    requires FromString(x, token, issuer, audience, keys, jku, db, now).Ok?
    ensures Segments(token).Some?
    ensures var (h, c, s) := Segments(token).value;
      && ReadHeader(x, h).Some? && ReadClaims(x, c).Some?
      && FromString(x, token, issuer, audience, keys, jku, db, now).value == (ReadHeader(x, h).value, ReadClaims(x, c).value)
      && Verifies(db, ReadClaims(x, c).value, issuer, audience, now)
      && ReadHeader(x, h).value.alg in ["RS256", "RS384", "RS512", "ES256", "ES384", "ES512", "EdDSA"]
      && ReadHeader(x, h).value.typ == "JWT" && ReadHeader(x, h).value.jku == jku
    ensures Signed(x, token, keys)
  {
  }

  /** The converse: if the keys verify signing inputs of issued tokens only, then what is accepted is the
    * header and the claims of an issued token, the header is one the service accepts, and the claims are live. */
  lemma AcceptedWasIssued(x: Crypto, issued: set<(TokenHeaders, TokenClaims)>, token: string, issuer: string, audience: string,
                          keys: string -> Option<PublicKey>, jku: Option<string>, db: Db, now: nat)
    requires x.Lawful() && FromString(x, token, issuer, audience, keys, jku, db, now).Ok?
    requires forall t :: t in issued ==> NoReserved(t.1.extra)
    requires forall kid :: keys(kid).Some? ==> Unforgeable(x, issued, keys(kid).value)
    ensures FromString(x, token, issuer, audience, keys, jku, db, now).value in issued
    ensures var (headers, claims) := FromString(x, token, issuer, audience, keys, jku, db, now).value;
      && Verifies(db, claims, issuer, audience, now)
      && headers.alg in ["RS256", "RS384", "RS512", "ES256", "ES384", "ES512", "EdDSA"] && headers.typ == "JWT" && headers.jku == jku
  {
    AcceptedVerified(x, token, issuer, audience, keys, jku, db, now);
    var (h, c, s) := Segments(token).value;
    SegmentsDotFree(token);
    assert Unforgeable(x, issued, keys(ReadHeader(x, h).value.kid).value);
    InputReadBack(x, issued, h, c);
  }

  lemma SegmentsDotFree(token: string)
    requires Segments(token).Some?
    ensures '.' !in Segments(token).value.0
  {
  }

  /** A text splits at its first dot in one way. */
  lemma SameSplit(a: string, b: string, a': string, b': string)
    requires '.' !in a && '.' !in a' && a + "." + b == a' + "." + b'
    ensures a == a' && b == b'
  {
    FirstSeparator(a, b, '.');
    FirstSeparator(a', b', '.');
  }

  /** `register_access_in_family` reads the `jti` and the expiry of the token that was just issued. */
  function ClaimsOfAccess(x: Crypto, access: string): Result<TokenClaims, JwtError> {
    match SplitOnce(access, '.')
    case None => Err(Broken)
    case Some(first) =>
      var second := SplitOnce(first.1, '.');
      match ReadClaims(x, if second.Some? then second.value.0 else first.1)
      case None => Err(Broken)
      case Some(claims) => Ok(claims)
  }

  lemma RegistersWhatWasIssued(x: Crypto, h: TokenHeaders, c: TokenClaims, key: PrivateKey)
    requires x.Lawful() && ToString(x, h, c, key).Ok?
    requires NoReserved(c.extra)
    ensures ClaimsOfAccess(x, ToString(x, h, c, key).value) == Ok(c)
  {
    var signature := x.encode(x.sign(SigningDigest(h.alg), key, SigningInput(x, h, c)).value);
    var hs, cs := HeaderSegment(x, h), ClaimsSegment(x, c);
    assert hs + "." + cs + "." + signature == hs + "." + (cs + "." + signature);
    FirstSeparator(hs, cs + "." + signature, '.');
    FirstSeparator(cs, signature, '.');
    ReadBack(x, h, c);
  }
}
