/** The login protocol and the staff check (main.py): `/token` checks the
    password, enrols a fresh TOTP secret and answers with its URI;
    `/verify_totp` checks a one-time code and issues an access token;
    `/staff` reads a bearer token from the `Authorization` header.

    As written, `/token` also returns an access token, before any second
    factor is checked; `PasswordAloneOpensStaff` shows that this token alone
    passes `/staff`. The model reproduces this rather than fixing it. */
module Endpoints {
  import opened Common
  import opened Crypto
  import opened PyStr
  import opened SecretStore
  import opened Auth

  datatype LoginResponse = LoginResponse(accessToken: string, message: string, totpUri: string)

  datatype TokenResponse = TokenResponse(accessToken: string, tokenType: string)

  /** The claims both endpoints hand to `create_access_token`. */
  function Subject(username: string): Claims
  {
    map["sub" := Str(username)]
  }

  /** `POST /token`. `secret` is the draw of `pyotp.random_base32()`. */
  method Login(store: TotpSecretStore, bc: Bcrypt, jose: Jose, otp: PyOtp, cfg: Config,
               username: string, password: string, secret: string, now: nat)
    returns (r: Result<LoginResponse>)
    requires IsRandomBase32(secret)
    modifies store
    ensures match AuthenticateUser(bc, cfg, username, password)
      case Err(e) => r == Err(e) && store.secrets == old(store.secrets)
      case Ok(None) => r == Err(HttpError(400, "Invalid credentials")) && store.secrets == old(store.secrets)
      case Ok(Some(user)) =>
        && store.secrets == old(store.secrets)[user.username := secret]
        && r == Ok(LoginResponse(CreateAccessToken(jose, cfg, Subject(user.username), now),
                                 "TOTP URI generated",
                                 otp.provisioningUri(secret, user.username, Issuer)))
    ensures r.Err? ==> r.error != HttpError(500, "Error generating TOTP URI")
  {
    var auth := AuthenticateUser(bc, cfg, username, password);
    if auth.Err? {
      return Err(auth.error);
    }
    if auth.value.None? {
      return Err(HttpError(400, "Invalid credentials"));
    }
    var user := auth.value.value;
    var totpData := GenerateTotpSecret(store, otp, user.username, secret);
    // The 500 guard on a missing "totp_uri" cannot fire: the key is always there.
    assert "totp_uri" in totpData;
    var totpUri := totpData["totp_uri"];
    var accessToken := CreateAccessToken(jose, cfg, Subject(user.username), now);
    r := Ok(LoginResponse(accessToken, "TOTP URI generated", totpUri));
  }

  /** `POST /verify_totp`: a token for the submitted username exactly when
      the code verifies; a missing secret propagates the 400, and a stored
      secret pyotp cannot decode the exception (a 500). */
  method VerifyTotp(store: TotpSecretStore, otp: PyOtp, jose: Jose, cfg: Config,
                    username: string, code: string, now: nat)
    returns (r: Result<TokenResponse>)
    ensures !Enrolled(store.secrets, username) ==> r == Err(NotEnrolled)
    ensures Enrolled(store.secrets, username) && SecretDecodeError(store.secrets[username]).Some? ==>
              r == Err(Crash(SecretDecodeError(store.secrets[username]).value))
    ensures Enrolled(store.secrets, username) && SecretDecodeError(store.secrets[username]).None? ==>
      if TotpAccepts(otp, store.secrets[username], code, now)
      then r == Ok(TokenResponse(CreateAccessToken(jose, cfg, Subject(username), now), "bearer"))
      else r == Err(HttpError(401, "Invalid TOTP code"))
  {
    var ok := VerifyTotpCode(store, otp, username, code, now);
    if ok.Err? {
      return Err(ok.error);
    }
    if ok.value {
      var accessToken := CreateAccessToken(jose, cfg, Subject(username), now);
      return Ok(TokenResponse(accessToken, "bearer"));
    }
    r := Err(HttpError(401, "Invalid TOTP code"));
  }

  const BearerPrefix: string := "Bearer "

  /** `header.split("Bearer ")[1]` on a header that starts with "Bearer ". */
  function BearerToken(header: string): string
    requires StartsWith(header, BearerPrefix)
  {
    SplitAfterPrefix(header, BearerPrefix);
    Split(header, BearerPrefix)[1]
  }

  /** The extracted token is the text after the prefix up to the next
      "Bearer " or the end of the header; it never contains "Bearer ". */
  lemma BearerTokenIsNextPiece(header: string)
    requires StartsWith(header, BearerPrefix)
    ensures BearerToken(header) ==
      match Find(header[|BearerPrefix|..], BearerPrefix)
      case None => header[|BearerPrefix|..]
      case Some(k) => header[|BearerPrefix|..|BearerPrefix| + k]
    ensures Find(BearerToken(header), BearerPrefix).None?
  {
    SplitAfterPrefix(header, BearerPrefix);
    SplitHead(header[|BearerPrefix|..], BearerPrefix);
    SplitPiecesFree(header, BearerPrefix);
  }

  /** A token without a space is read back whole from "Bearer " + token. */
  lemma BearerRoundTrip(token: string)
    requires ' ' !in token
    ensures BearerToken(BearerPrefix + token) == token
  {
    var header := BearerPrefix + token;
    assert header[|BearerPrefix|..] == token;
    forall j: nat ensures !OccursAt(token, BearerPrefix, j) {
      if j + |BearerPrefix| <= |token| {
        assert token[j..j + |BearerPrefix|][6] == token[j + 6];
      }
    }
    FindSpec(token, BearerPrefix);
    BearerTokenIsNextPiece(header);
  }

  /** `GET /staff`: every failure is a 401; success needs a header starting
      with "Bearer ", a token that decodes, and a truthy `sub`, which is
      returned as the username. */
  function ReadStaff(jose: Jose, cfg: Config, authorization: Option<string>, now: int): (r: Result<Claim>)
    ensures r.Err? ==> r.error.HttpError? && r.error.status == 401
    ensures (authorization.None? || authorization.value == "") ==>
              r == Err(HttpError(401, "Authorization header is missing. Please include a valid token."))
    ensures authorization.Some? && authorization.value != "" && !StartsWith(authorization.value, BearerPrefix) ==>
              r == Err(HttpError(401, "Authorization header format is invalid. Expected 'Bearer <token>'."))
    ensures r.Ok? <==>
              && authorization.Some? && StartsWith(authorization.value, BearerPrefix)
              && var d := jose.decode(BearerToken(authorization.value), cfg.jwtSecretKey, now);
                 d.Decoded? && "sub" in d.claims && Truthy(d.claims["sub"])
    ensures r.Ok? ==> r.value == jose.decode(BearerToken(authorization.value), cfg.jwtSecretKey, now).claims["sub"]
  {
    if authorization.None? || authorization.value == "" then
      Err(HttpError(401, "Authorization header is missing. Please include a valid token."))
    else if !StartsWith(authorization.value, BearerPrefix) then
      Err(HttpError(401, "Authorization header format is invalid. Expected 'Bearer <token>'."))
    else
      match jose.decode(BearerToken(authorization.value), cfg.jwtSecretKey, now)
      case JwtError(message) => Err(HttpError(401, "Token validation error: " + message))
      case Decoded(payload) =>
        if "sub" in payload && Truthy(payload["sub"]) then Ok(payload["sub"])
        else Err(HttpError(401, "Token payload missing 'sub' field."))
  }

  /** The token `/token` hands out after the password step alone opens
      `/staff` for its whole lifetime: no TOTP code is ever checked. */
  lemma PasswordAloneOpensStaff(jose: Jose, cfg: Config, username: string, now: int, t: int)
    requires JoseLaws(jose) && username != ""
    requires t <= now + 60 * cfg.ttlMinutes
    ensures ReadStaff(jose, cfg, Some(BearerPrefix + CreateAccessToken(jose, cfg, Subject(username), now)), t)
              == Ok(Str(username))
  {
    var token := CreateAccessToken(jose, cfg, Subject(username), now);
    BearerRoundTrip(token);
    AccessTokenRoundTrip(jose, cfg, Subject(username), now, t);
    var claims := AccessClaims(Subject(username), now, cfg.ttlMinutes);
    assert claims["sub"] == Str(username);
  }

  /** A header with the prefix twice ("Bearer Bearer x") yields the empty
      token, and that empty string is what goes to the decoder. */
  lemma DoubledPrefixGivesEmptyToken(rest: string)
    ensures BearerToken(BearerPrefix + BearerPrefix + rest) == ""
  {
    var header := BearerPrefix + BearerPrefix + rest;
    assert header[|BearerPrefix|..][..|BearerPrefix|] == BearerPrefix;
    assert Find(header[|BearerPrefix|..], BearerPrefix) == Some(0);
    BearerTokenIsNextPiece(header);
  }

  /** The protocol end to end, as the code runs it: a correct password, the
      code of the current step for the secret just enrolled, and the token
      `/verify_totp` issues for it. */
  method LoginThenVerify(store: TotpSecretStore, bc: Bcrypt, jose: Jose, otp: PyOtp, cfg: Config,
                         password: string, secret: string, now: nat)
    returns (login: Result<LoginResponse>, verified: Result<TokenResponse>)
    requires IsRandomBase32(secret)
    requires cfg.staffUsername.Some? && cfg.staffPasswordHash.Some?
    requires bc.wellFormed(cfg.staffPasswordHash.value)
    requires VerifyPassword(bc, cfg, password, cfg.staffPasswordHash.value)
    modifies store
    ensures login.Ok? && login.value.totpUri == otp.provisioningUri(secret, cfg.staffUsername.value, Issuer)
    ensures verified == Ok(TokenResponse(CreateAccessToken(jose, cfg, Subject(cfg.staffUsername.value), now), "bearer"))
  {
    var username := cfg.staffUsername.value;
    login := Login(store, bc, jose, otp, cfg, username, password, secret, now);
    assert store.secrets[username] == secret;
    RandomBase32Decodes(secret);
    verified := VerifyTotp(store, otp, jose, cfg, username, otp.at(secret, TimeStep(now)), now);
  }
}
