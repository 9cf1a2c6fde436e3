/** Authentication decisions (app/auth.py): peppered password checking
    against the one configured staff account, access-token claims, TOTP
    enrolment and verification against the secret store, and resolution of
    the current user from a presented token. The configuration the module
    reads from the environment is a `Config` value; the clock is `now`, Unix
    seconds. */
module Auth {
  import opened Common
  import opened Crypto
  import opened SecretStore
  import opened PyStr

  const DefaultTtlMinutes: int := 30
  const Issuer: string := "Pythonccino"
  const AccessScope: string := "access"

  /** The environment as the module sees it. `ttlMinutes` is
      `ACCESS_TOKEN_EXPIRE_MINUTES`, 30 when unset. */
  datatype Config = Config(
    jwtSecretKey: string,
    pepperSecret: string,
    staffUsername: Option<string>,
    staffPasswordHash: Option<string>,
    ttlMinutes: int)

  /** What importing the module guarantees: both secrets are set and non-empty. */
  predicate Loaded(cfg: Config)
  {
    cfg.jwtSecretKey != "" && cfg.pepperSecret != ""
  }

  function Env(env: map<string, string>, key: string): Option<string>
  {
    if key in env then Some(env[key]) else None
  }

  /** Module start-up: `ValueError` when `JWT_SECRET_KEY` (checked first) or
      `PEPPER_SECRET` is unset or empty, otherwise the configuration read
      from the environment. `ttlMinutes` is the already-parsed value of
      `ACCESS_TOKEN_EXPIRE_MINUTES`, if set. */
  function LoadConfig(env: map<string, string>, ttlMinutes: Option<int>): (r: Result<Config>)
    ensures r.Ok? <==> Env(env, "JWT_SECRET_KEY").Some? && env["JWT_SECRET_KEY"] != ""
                       && Env(env, "PEPPER_SECRET").Some? && env["PEPPER_SECRET"] != ""
    ensures r.Ok? ==> Loaded(r.value)
    ensures r.Ok? ==> r.value.jwtSecretKey == env["JWT_SECRET_KEY"] && r.value.pepperSecret == env["PEPPER_SECRET"]
    ensures r.Ok? ==> r.value.staffUsername == Env(env, "STAFF_USERNAME")
                      && r.value.staffPasswordHash == Env(env, "STAFF_PASSWORD")
    ensures r.Ok? ==> r.value.ttlMinutes == (if ttlMinutes.Some? then ttlMinutes.value else DefaultTtlMinutes)
    ensures r.Err? ==> r.error.Crash?
  {
    var key := Env(env, "JWT_SECRET_KEY");
    var pepper := Env(env, "PEPPER_SECRET");
    if key.None? || key.value == "" then
      Err(Crash("ValueError: SECRET_KEY is missing from environment variables"))
    else if pepper.None? || pepper.value == "" then
      Err(Crash("ValueError: PEPPER_SECRET is missing from environment variables"))
    else
      Ok(Config(key.value, pepper.value, Env(env, "STAFF_USERNAME"), Env(env, "STAFF_PASSWORD"),
                if ttlMinutes.Some? then ttlMinutes.value else DefaultTtlMinutes))
  }

  /** `hash_password`: bcrypt of the password with the pepper appended;
      `salt` is what `gensalt(rounds=12)` drew. */
  function HashPassword(bc: Bcrypt, cfg: Config, password: string, salt: string): string
  {
    bc.hashpw(password + cfg.pepperSecret, salt)
  }

  /** `verify_password`: bcrypt check of the password with the same pepper
      appended, on a hash `checkpw` can parse (see `AuthenticateUser` for
      the other case). */
  function VerifyPassword(bc: Bcrypt, cfg: Config, plain: string, hashed: string): bool
  {
    bc.checkpw(plain + cfg.pepperSecret, hashed)
  }

  /** Hashing and verifying append the same pepper, so a hash verifies
      against its own password. */
  lemma HashThenVerify(bc: Bcrypt, cfg: Config, password: string, salt: string)
    requires BcryptLaws(bc)
    ensures bc.wellFormed(HashPassword(bc, cfg, password, salt))
    ensures VerifyPassword(bc, cfg, password, HashPassword(bc, cfg, password, salt))
  {
  }

  lemma AppendCancel(a: string, b: string, c: string, d: string)
    requires a + b == c + d
    requires |a| == |c| || |b| == |d|
    ensures a == c && b == d
  {
    assert |a| == |c|;
    assert a == (a + b)[..|a|] && c == (c + d)[..|c|];
    assert b == (a + b)[|a|..] && d == (c + d)[|c|..];
  }

  /** Under collision-free hashing a hash made with one pepper verifies
      exactly the same password under the same pepper, and nothing once the
      pepper is changed. */
  lemma PepperBindsHash(bc: Bcrypt, cfg: Config, cfg': Config, p: string, q: string, salt: string)
    requires BcryptLaws(bc) && BcryptCollisionFree(bc)
    ensures cfg'.pepperSecret == cfg.pepperSecret ==>
              (VerifyPassword(bc, cfg', p, HashPassword(bc, cfg, q, salt)) <==> p == q)
    ensures cfg'.pepperSecret != cfg.pepperSecret ==>
              !VerifyPassword(bc, cfg', q, HashPassword(bc, cfg, q, salt))
  {
    if VerifyPassword(bc, cfg', p, HashPassword(bc, cfg, q, salt)) {
      assert p + cfg'.pepperSecret == q + cfg.pepperSecret;
      if cfg'.pepperSecret == cfg.pepperSecret {
        AppendCancel(p, cfg'.pepperSecret, q, cfg.pepperSecret);
      }
    }
    if VerifyPassword(bc, cfg', q, HashPassword(bc, cfg, q, salt)) {
      assert q + cfg'.pepperSecret == q + cfg.pepperSecret;
      AppendCancel(q, cfg'.pepperSecret, q, cfg.pepperSecret);
    }
  }

  datatype User = User(username: string)

  /** `authenticate_user`. With `STAFF_USERNAME` unset no username matches;
      with `STAFF_PASSWORD` unset a matching username reaches
      `None.encode(...)` and raises AttributeError; with `STAFF_PASSWORD` set
      to something that is not a bcrypt hash, `checkpw` raises ValueError.
      Any mismatch gives the same `None`. */
  function AuthenticateUser(bc: Bcrypt, cfg: Config, username: string, password: string): (r: Result<Option<User>>)
    ensures r == Ok(Some(User(username))) <==>
              cfg.staffUsername == Some(username) && cfg.staffPasswordHash.Some?
              && bc.wellFormed(cfg.staffPasswordHash.value)
              && VerifyPassword(bc, cfg, password, cfg.staffPasswordHash.value)
    ensures r.Err? <==>
              cfg.staffUsername == Some(username)
              && (cfg.staffPasswordHash.None? || !bc.wellFormed(cfg.staffPasswordHash.value))
    ensures r.Err? && cfg.staffPasswordHash.Some? ==> r.error == Crash("ValueError: Invalid salt")
    ensures r.Ok? && r.value.Some? ==> r.value.value.username == username
  {
    if cfg.staffUsername == Some(username) then
      match cfg.staffPasswordHash
      case None => Err(Crash("AttributeError: 'NoneType' object has no attribute 'encode'"))
      case Some(h) =>
        if !bc.wellFormed(h) then Err(Crash("ValueError: Invalid salt"))
        else if VerifyPassword(bc, cfg, password, h) then Ok(Some(User(username)))
        else Ok(None)
    else
      Ok(None)
  }

  /** The staff account is the only identity: every other username is
      refused whatever the password, and so is the staff username with a
      password that does not verify, with the same answer. */
  lemma OnlyStaffAuthenticates(bc: Bcrypt, cfg: Config, username: string, password: string)
    ensures cfg.staffUsername != Some(username) ==> AuthenticateUser(bc, cfg, username, password) == Ok(None)
    ensures cfg.staffUsername == Some(username) && cfg.staffPasswordHash.Some?
            && bc.wellFormed(cfg.staffPasswordHash.value)
            && !VerifyPassword(bc, cfg, password, cfg.staffPasswordHash.value) ==>
              AuthenticateUser(bc, cfg, username, password) == Ok(None)
  {
  }

  /** The payload `create_access_token` signs: a copy of `data` updated with
      `exp` (issue time plus the TTL), `iat` and `scope`. Every claim of the
      caller survives unless it is one of those three. */
  function AccessClaims(data: Claims, now: int, ttlMinutes: int): (r: Claims)
    ensures r.Keys == data.Keys + {"exp", "iat", "scope"}
    ensures forall k :: k in data && k !in {"exp", "iat", "scope"} ==> r[k] == data[k]
    ensures r["exp"] == Num(now + 60 * ttlMinutes)
    ensures r["iat"] == Num(now)
    ensures r["scope"] == Str("access")
  {
    data + map["exp" := Num(now + 60 * ttlMinutes), "iat" := Num(now), "scope" := Str(AccessScope)]
  }

  /** `create_access_token`. */
  function CreateAccessToken(jose: Jose, cfg: Config, data: Claims, now: int): (r: string)
    ensures JoseLaws(jose) ==> |r| > 0 && ' ' !in r
  {
    jose.encode(AccessClaims(data, now, cfg.ttlMinutes), cfg.jwtSecretKey)
  }

  /** Claims a caller may hand to `create_access_token` that python-jose
      accepts back: a string subject, no audience or not-before claim. */
  predicate PayloadOk(data: Claims)
  {
    ("sub" in data ==> data["sub"].Str?) && "aud" !in data && "nbf" !in data
  }

  /** An access token decodes, with the signing key, to the payload it was
      made from until `ttlMinutes` minutes after issue, and fails after. */
  lemma AccessTokenRoundTrip(jose: Jose, cfg: Config, data: Claims, now: int, t: int)
    requires JoseLaws(jose) && PayloadOk(data)
    ensures t <= now + 60 * cfg.ttlMinutes ==>
              jose.decode(CreateAccessToken(jose, cfg, data, now), cfg.jwtSecretKey, t)
                == Decoded(AccessClaims(data, now, cfg.ttlMinutes))
    ensures t > now + 60 * cfg.ttlMinutes ==>
              jose.decode(CreateAccessToken(jose, cfg, data, now), cfg.jwtSecretKey, t).JwtError?
  {
    var c := AccessClaims(data, now, cfg.ttlMinutes);
    assert WellTyped(c);
    assert ExpiredAt(c, t) <==> t > now + 60 * cfg.ttlMinutes;
  }

  /** `pyotp.random_base32()`: 32 characters of the RFC 4648 base32 alphabet. */
  predicate IsRandomBase32(s: string)
  {
    |s| == 32 && forall i :: 0 <= i < |s| ==> Base32Char(s[i])
  }

  /** Every secret `random_base32` draws is one pyotp can decode. */
  lemma RandomBase32Decodes(s: string)
    requires IsRandomBase32(s)
    ensures SecretDecodeError(s) == None
  {
    FullQuantaDecode(s);
  }

  /** The secret the repository's own test stores for "test_user" is not
      base32: pyotp raises on it instead of computing a code. */
  lemma TestSecretDoesNotDecode()
    ensures SecretDecodeError("test_secret") == Some(NonBase32Digit)
  {
    var t := "test_secret";
    assert t[4] == '_';
    assert IsAscii(t);
    StrayCharacterFails(t, 4);
  }

  /** `generate_totp_secret`: store the fresh secret for the user, replacing
      any earlier one, and return the provisioning URI for that secret under
      the user's name and the issuer "Pythonccino". */
  method GenerateTotpSecret(store: TotpSecretStore, otp: PyOtp, username: string, secret: string)
    returns (data: map<string, string>)
    requires IsRandomBase32(secret)
    modifies store
    ensures store.secrets == old(store.secrets)[username := secret]
    ensures data == map["totp_uri" := otp.provisioningUri(secret, username, Issuer)]
  {
    store.Store(username, secret);
    data := map["totp_uri" := otp.provisioningUri(secret, username, Issuer)];
  }

  const NotEnrolled: Error := HttpError(400, "TOTP secret not found for this user")

  /** A stored secret counts only when it is truthy: `if not secret` also
      rejects an empty one. */
  predicate Enrolled(secrets: map<string, string>, username: string)
  {
    username in secrets && secrets[username] != ""
  }

  /** `verify_totp_code`: 400 when the user has no (non-empty) secret; the
      exception pyotp raises when the stored secret does not decode;
      otherwise whether the code is that of the current 30-second step or
      one step either side, a wrong code being `false`, not an error. */
  method VerifyTotpCode(store: TotpSecretStore, otp: PyOtp, username: string, code: string, now: nat)
    returns (r: Result<bool>)
    ensures r == Err(NotEnrolled) <==> !Enrolled(store.secrets, username)
    ensures Enrolled(store.secrets, username) ==>
              match SecretDecodeError(store.secrets[username])
              case Some(e) => r == Err(Crash(e))
              case None => r == Ok(TotpAccepts(otp, store.secrets[username], code, now))
  {
    var secret := store.Get(username);
    if secret.None? || secret.value == "" {
      return Err(NotEnrolled);
    }
    var decodeError := SecretDecodeError(secret.value);
    if decodeError.Some? {
      return Err(Crash(decodeError.value));
    }
    r := Ok(TotpAccepts(otp, secret.value, code, now));
  }

  /** The store after test_totp_secret.py has run: "test_user" is enrolled
      with "test_secret", and verifying any code for that user raises. */
  method TestUserCannotVerify(store: TotpSecretStore, otp: PyOtp, code: string, now: nat)
    returns (r: Result<bool>)
    modifies store
    ensures r == Err(Crash(NonBase32Digit))
  {
    var _ := StoreThenRetrieve(store, "test_user", "test_secret");
    TestSecretDoesNotDecode();
    r := VerifyTotpCode(store, otp, "test_user", code, now);
  }

  /** `get_current_user`. `headerToken` is what the bearer-token dependency
      extracted from the `Authorization` header, `queryToken` the `token`
      query parameter; an empty string counts as absent. */
  function GetCurrentUser(jose: Jose, cfg: Config, headerToken: Option<string>, queryToken: Option<string>, now: int)
    : (r: Result<Claims>)
    ensures r.Err? ==> r.error.HttpError? && r.error.status == 401
    ensures r == Err(HttpError(401, "Not authenticated")) <==>
              (headerToken.None? || headerToken.value == "") && (queryToken.None? || queryToken.value == "")
    ensures headerToken.Some? && headerToken.value != "" ==>
              (r.Ok? <==> jose.decode(headerToken.value, cfg.jwtSecretKey, now).Decoded?)
              && (r.Ok? ==> jose.decode(headerToken.value, cfg.jwtSecretKey, now) == Decoded(r.value))
    ensures (headerToken.None? || headerToken.value == "") && queryToken.Some? && queryToken.value != "" ==>
              (r.Ok? <==> jose.decode(queryToken.value, cfg.jwtSecretKey, now).Decoded?)
              && (r.Ok? ==> jose.decode(queryToken.value, cfg.jwtSecretKey, now) == Decoded(r.value))
  {
    var token := if headerToken.Some? && headerToken.value != "" then headerToken else queryToken;
    if token.None? || token.value == "" then
      Err(HttpError(401, "Not authenticated"))
    else
      match jose.decode(token.value, cfg.jwtSecretKey, now)
      case JwtError(_) => Err(HttpError(401, "Invalid token"))
      case Decoded(claims) => Ok(claims)
  }

  /** A fresh access token resolves to its own payload, whether presented in
      the header or, behind an empty header credential, as the query
      parameter; after expiry it is refused as an invalid token. Nothing
      requires a `sub` claim. */
  lemma IssuedTokenResolves(jose: Jose, cfg: Config, data: Claims, now: int, t: int, query: Option<string>)
    requires JoseLaws(jose) && PayloadOk(data)
    ensures var token := CreateAccessToken(jose, cfg, data, now);
      && (t <= now + 60 * cfg.ttlMinutes ==>
            GetCurrentUser(jose, cfg, Some(token), query, t) == Ok(AccessClaims(data, now, cfg.ttlMinutes))
            && GetCurrentUser(jose, cfg, Some(""), Some(token), t) == Ok(AccessClaims(data, now, cfg.ttlMinutes)))
      && (t > now + 60 * cfg.ttlMinutes ==>
            GetCurrentUser(jose, cfg, Some(token), query, t) == Err(HttpError(401, "Invalid token")))
  {
    AccessTokenRoundTrip(jose, cfg, data, now, t);
  }

  /** `get_authorization_scheme_param`: the text before the first space
      and the text after it, or the whole header and "" when it has no
      space. */
  function SchemeParam(authorization: string): (string, string)
  {
    match Find(authorization, " ")
    case None => (authorization, "")
    case Some(k) => (authorization[..k], authorization[k + 1..])
  }

  /** `OAuth2PasswordBearer(tokenUrl="token")`, the dependency in front of
      `get_current_user`, with its default `auto_error`: a missing or empty
      `Authorization` header, or one whose scheme is not "bearer" in some
      case, is refused with 401 "Not authenticated"; otherwise the rest of
      the header after the first space, possibly "", is the credential. */
  function BearerCredential(authorization: Option<string>): (r: Result<string>)
    ensures r.Err? ==> r.error == HttpError(401, "Not authenticated")
    ensures authorization.None? || authorization.value == "" ==> r.Err?
  {
    if authorization.None? || authorization.value == "" then
      Err(HttpError(401, "Not authenticated"))
    else
      var (scheme, param) := SchemeParam(authorization.value);
      if Lower(scheme) != "bearer" then Err(HttpError(401, "Not authenticated")) else Ok(param)
  }

  /** A header the bearer scheme accepts: "bearer" in any case, then a space
      or the end of the header. */
  predicate BearerForm(a: string)
  {
    |a| >= 6 && Lower(a[..6]) == "bearer" && (|a| == 6 || a[6] == ' ')
  }

  /** A one-character separator occurs exactly where that character is. */
  lemma SpaceAt(a: string, j: nat)
    ensures OccursAt(a, " ", j) <==> j < |a| && a[j] == ' '
  {
    if j < |a| {
      assert a[j..j + 1][0] == a[j];
    }
  }

  /** The dependency accepts exactly the headers of bearer form, and then
      passes on everything after "bearer ". */
  lemma BearerCredentialSpec(authorization: Option<string>)
    ensures BearerCredential(authorization).Ok? <==> authorization.Some? && BearerForm(authorization.value)
    ensures BearerCredential(authorization).Ok? ==>
              BearerCredential(authorization).value == authorization.value[Min(7, |authorization.value|)..]
  {
    if authorization.Some? && authorization.value != "" {
      var a := authorization.value;
      FindSpec(a, " ");
      if |a| >= 6 && Lower(a[..6]) == "bearer" {
        forall j | 0 <= j < 6
          ensures !OccursAt(a, " ", j)
        {
          assert LowerChar(a[j]) == Lower(a[..6])[j];
          SpaceAt(a, j);
        }
      }
      match Find(a, " ")
      case None =>
        SpaceAt(a, 6);
        if |a| == 6 {
          assert a[..6] == a;
        }
      case Some(k) =>
        SpaceAt(a, k);
        SpaceAt(a, 6);
        if k == 6 {
          assert a[..k] == a[..6];
        }
    }
  }

  /** "Bearer " followed by any token passes that token on unchanged. */
  lemma BearerHeaderCredential(token: string)
    ensures BearerCredential(Some("Bearer " + token)) == Ok(token)
  {
    var a := "Bearer " + token;
    assert a[..6] == "Bearer";
    assert Lower("Bearer") == "bearer";
    assert a[6] == ' ';
    BearerCredentialSpec(Some(a));
    assert a[7..] == token;
  }

  /** The user a request resolves to: the bearer dependency first, then
      `get_current_user` on its credential and the `token` query parameter. */
  function RequestUser(jose: Jose, cfg: Config, authorization: Option<string>, queryToken: Option<string>, now: int)
    : (r: Result<Claims>)
    ensures BearerCredential(authorization).Err? ==> r == Err(HttpError(401, "Not authenticated"))
    ensures BearerCredential(authorization).Ok? ==>
              r == GetCurrentUser(jose, cfg, Some(BearerCredential(authorization).value), queryToken, now)
  {
    match BearerCredential(authorization)
    case Err(e) => Err(e)
    case Ok(credential) => GetCurrentUser(jose, cfg, Some(credential), queryToken, now)
  }

  /** Through the bearer dependency, a fresh access token is accepted in the
      header, and in the query only behind a header of bare "Bearer "; with
      no header at all the query is never consulted. */
  lemma IssuedTokenThroughDependency(jose: Jose, cfg: Config, data: Claims, now: int, t: int, query: Option<string>)
    requires JoseLaws(jose) && PayloadOk(data)
    requires t <= now + 60 * cfg.ttlMinutes
    ensures var token := CreateAccessToken(jose, cfg, data, now);
      && RequestUser(jose, cfg, Some("Bearer " + token), query, t) == Ok(AccessClaims(data, now, cfg.ttlMinutes))
      && RequestUser(jose, cfg, Some("Bearer "), Some(token), t) == Ok(AccessClaims(data, now, cfg.ttlMinutes))
      && RequestUser(jose, cfg, None, Some(token), t) == Err(HttpError(401, "Not authenticated"))
  {
    var token := CreateAccessToken(jose, cfg, data, now);
    BearerHeaderCredential(token);
    BearerHeaderCredential("");
    assert "Bearer " + "" == "Bearer ";
    IssuedTokenResolves(jose, cfg, data, now, t, query);
  }
}
