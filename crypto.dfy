/** The cryptographic libraries the authentication code calls (bcrypt,
    python-jose's HS256 JWTs, pyotp's TOTP), taken as collaborators: each is
    a record of functions the caller supplies, and a predicate states the
    laws the model relies on. Nothing here computes a hash, a signature or an
    HMAC. */
module Crypto {
  import opened Common
  import opened PyStr

  /** A JSON value as it appears in a token payload. */
  datatype Claim = Str(s: string) | Num(n: int)

  type Claims = map<string, Claim>

  /** Python truthiness of a JSON value: "" and 0 are falsy. */
  predicate Truthy(c: Claim)
  {
    match c
    case Str(s) => s != ""
    case Num(n) => n != 0
  }

  /** bcrypt: `hashpw(password, salt)` and `checkpw(password, hashed)`;
      the salt is the random input of `gensalt`. `wellFormed(hashed)` says
      whether `checkpw` can parse the stored hash at all: on any other
      string it raises ValueError("Invalid salt") instead of answering. */
  datatype Bcrypt = Bcrypt(hashpw: (string, string) -> string, checkpw: (string, string) -> bool,
                           wellFormed: string -> bool)

  /** A hash is well formed and verifies against the password it was made from. */
  ghost predicate BcryptLaws(b: Bcrypt)
  {
    forall x, salt :: b.wellFormed(b.hashpw(x, salt)) && b.checkpw(x, b.hashpw(x, salt))
  }

  /** The idealisation that a hash verifies against nothing else. */
  ghost predicate BcryptCollisionFree(b: Bcrypt)
  {
    forall x, y, salt :: b.checkpw(x, b.hashpw(y, salt)) ==> x == y
  }

  /** Outcome of `jwt.decode`: the payload, or the `JWTError` it raises. */
  datatype Decoded = Decoded(claims: Claims) | JwtError(message: string)

  /** python-jose: `encode(claims, key)` and `decode(token, key, now)`, the
      latter checking signature and expiry against the clock `now`. */
  datatype Jose = Jose(encode: (Claims, string) -> string, decode: (string, string, int) -> Decoded)

  /** A payload whose registered claims have the types python-jose checks,
      and no claim (audience, not-before) it would reject when decoding
      without further options. */
  predicate WellTyped(c: Claims)
  {
    && ("exp" in c ==> c["exp"].Num?)
    && ("iat" in c ==> c["iat"].Num?)
    && ("sub" in c ==> c["sub"].Str?)
    && "aud" !in c && "nbf" !in c
  }

  /** The payload's expiry lies strictly before `now`. */
  predicate ExpiredAt(c: Claims, now: int)
  {
    "exp" in c && c["exp"].Num? && now > c["exp"].n
  }

  ghost predicate JoseLaws(j: Jose)
  {
    // decoding with the signing key gives the payload back until it expires
    && (forall c, k, now :: WellTyped(c) && !ExpiredAt(c, now) ==> j.decode(j.encode(c, k), k, now) == Decoded(c))
    && (forall c, k, now :: ExpiredAt(c, now) ==> j.decode(j.encode(c, k), k, now).JwtError?)
    // a compact JWS is three non-empty base64url segments joined by dots
    && (forall c, k :: |j.encode(c, k)| > 0 && ' ' !in j.encode(c, k))
  }

  /** pyotp: `at(secret, counter)` is the one-time code of a time step for
      a secret that decodes (see `SecretDecodeError`), and
      `provisioningUri(secret, name, issuer)` the enrolment URI. */
  datatype PyOtp = PyOtp(at: (string, int) -> string, provisioningUri: (string, string, string) -> string)

  /** The RFC 4648 base32 alphabet: "A" to "Z", then "2" to "7". */
  predicate Base32Char(c: char)
  {
    'A' <= c <= 'Z' || '2' <= c <= '7'
  }

  const NonAscii: string := "ValueError: string argument should contain only ASCII characters"
  const NonBase32Digit: string := "binascii.Error: Non-base32 digit found"
  const IncorrectPadding: string := "binascii.Error: Incorrect padding"

  predicate IsAscii(s: string)
  {
    forall i :: 0 <= i < |s| ==> (s[i] as int) < 128
  }

  /** A base32 digit once `casefold=True` has upper-cased the input. */
  predicate B32Digit(c: char)
  {
    Base32Char(c) || 'a' <= c <= 'z'
  }

  predicate AllB32Digits(s: string)
  {
    forall i :: 0 <= i < |s| ==> B32Digit(s[i])
  }

  /** The step every pyotp code computation starts with (`byte_secret`):
      the secret, padded with "=" to a multiple of eight characters, goes to
      `base64.b32decode(..., casefold=True)`. None when it decodes, otherwise
      the exception raised: a non-ASCII character fails the conversion to
      bytes; after the trailing "=" are stripped, any character that is not
      a base32 digit fails; and the stripped "=" must number 0, 1, 3, 4 or
      6, the paddings a final quantum can carry. */
  function SecretDecodeError(secret: string): Option<string>
  {
    var stripped := RStrip(Padded(secret), '=');
    if !IsAscii(secret) then Some(NonAscii)
    else if !AllB32Digits(stripped) then Some(NonBase32Digit)
    else if |Padded(secret)| - |stripped| !in {0, 1, 3, 4, 6} then Some(IncorrectPadding)
    else None
  }

  /** The secret followed by "=" up to a multiple of eight characters. */
  function Padded(secret: string): (r: string)
    ensures |r| % 8 == 0 && secret <= r
    ensures forall i :: |secret| <= i < |r| ==> r[i] == '='
  {
    secret + seq((8 - |secret| % 8) % 8, _ => '=')
  }

  /** Whole quanta of base32 digits, in either case, always decode. */
  lemma FullQuantaDecode(secret: string)
    requires |secret| % 8 == 0 && AllB32Digits(secret)
    ensures SecretDecodeError(secret) == None
  {
    assert Padded(secret) == secret;
    assert secret == [] || secret[|secret| - 1] != '=';
    assert RStrip(secret, '=') == secret;
    DigitsAreAscii(secret);
  }

  lemma DigitsAreAscii(s: string)
    requires AllB32Digits(s)
    ensures IsAscii(s)
  {
    forall i | 0 <= i < |s| ensures (s[i] as int) < 128 {
      assert B32Digit(s[i]);
    }
  }

  /** A character that is neither a base32 digit nor "=" makes decoding
      raise, as `binascii.Error` when the secret is ASCII. */
  lemma StrayCharacterFails(secret: string, i: nat)
    requires i < |secret| && !B32Digit(secret[i]) && secret[i] != '='
    ensures SecretDecodeError(secret).Some?
    ensures IsAscii(secret) ==> SecretDecodeError(secret) == Some(NonBase32Digit)
  {
    var stripped := RStrip(Padded(secret), '=');
    assert Padded(secret)[i] == secret[i];
    assert i < |stripped|;
    assert stripped[i] == secret[i];
  }

  /** TOTP time step length in seconds. */
  const Interval: nat := 30

  function TimeStep(now: nat): nat
  {
    now / Interval
  }

  /** `TOTP(secret).verify(code, valid_window=1)` at time `now`: the code of
      the current step or of one step either side. */
  predicate TotpAccepts(otp: PyOtp, secret: string, code: string, now: nat)
  {
    var step := TimeStep(now);
    code == otp.at(secret, step - 1) || code == otp.at(secret, step) || code == otp.at(secret, step + 1)
  }

  /** The code of step `c` is accepted exactly during the 90 seconds from the
      start of step c - 1 to the end of step c + 1: the replay window the
      one-step tolerance opens. */
  lemma AcceptanceWindow(otp: PyOtp, secret: string, c: int, now: nat)
    ensures 30 * (c - 1) <= now < 30 * (c + 2) ==> TotpAccepts(otp, secret, otp.at(secret, c), now)
    ensures (forall d :: d != c ==> otp.at(secret, d) != otp.at(secret, c)) ==>
              (TotpAccepts(otp, secret, otp.at(secret, c), now) ==> 30 * (c - 1) <= now < 30 * (c + 2))
  {
    var step := TimeStep(now);
    assert 30 * step <= now < 30 * step + 30;
    if 30 * (c - 1) <= now < 30 * (c + 2) {
      assert c - 1 <= step <= c + 1;
    }
  }
}
