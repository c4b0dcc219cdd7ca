/** The token endpoint: the placeholder credential check and the claims of
    the JSON Web Token it issues. Signing (`JwtSecurityTokenHandler`) is the
    parameter `writeToken`; the random token id and the clock readings are
    inputs. */
module AuthController {
  import opened Wrappers
  import opened Text
  import opened Encoding
  import opened Models

  const InvalidCredentialsMessage := "Credenciales inválidas"
  const AuthenticatedMessage := "Autenticación exitosa"

  const Ok := 200
  const Unauthorized := 401

  /** `ClaimTypes.Name`. */
  const NameClaimType := "http://schemas.xmlsoap.org/ws/2005/05/identity/claims/name"
  /** The subject claim, section 4.1.2 of RFC 7519. */
  const SubjectClaimType := "sub"
  /** The JWT ID claim, section 4.1.7 of RFC 7519. */
  const TokenIdClaimType := "jti"
  /** `SecurityAlgorithms.HmacSha256Signature`. */
  const HmacSha256Signature := "http://www.w3.org/2001/04/xmldsig-more#hmac-sha256"

  datatype Claim = Claim(claimType: string, value: string)

  /** The `Jwt` configuration section. */
  datatype JwtSettings = JwtSettings(key: string, issuer: Option<string>, audience: Option<string>)

  /** What is handed to the token handler to sign. */
  datatype TokenDescriptor = TokenDescriptor(
    subject: seq<Claim>,
    expires: Instant,
    issuer: Option<string>,
    audience: Option<string>,
    signingKey: seq<byte>,
    algorithm: string)

  datatype TokenResult = TokenResult(statusCode: int, body: LoginResponse, issued: Option<TokenDescriptor>)

  /** The placeholder check: both username and password present and
      non-empty. */
  predicate IsValidUser(username: Option<string>, password: Option<string>) {
    !IsNullOrEmpty(username) && !IsNullOrEmpty(password)
  }

  /** The values of the claims of one type, in order. */
  function ClaimValues(claims: seq<Claim>, claimType: string): seq<string>
    decreases |claims|
  {
    if claims == [] then []
    else ValuesOf(claims[0], claimType) + ClaimValues(claims[1..], claimType)
  }

  function ValuesOf(c: Claim, claimType: string): seq<string> {
    if c.claimType == claimType then [c.value] else []
  }

  lemma ClaimValuesOfThree(c0: Claim, c1: Claim, c2: Claim, claimType: string)
    ensures ClaimValues([c0, c1, c2], claimType)
         == ValuesOf(c0, claimType) + ValuesOf(c1, claimType) + ValuesOf(c2, claimType)
  {
    assert [c0, c1, c2][1..] == [c1, c2];
    assert [c1, c2][1..] == [c2];
    assert [c2][1..] == [];
    assert ClaimValues([c2], claimType) == ValuesOf(c2, claimType) + [];
    assert ValuesOf(c2, claimType) + [] == ValuesOf(c2, claimType);
    assert ClaimValues([c1, c2], claimType) == ValuesOf(c1, claimType) + ValuesOf(c2, claimType);
  }

  /** The claims of an issued token. */
  function TokenClaims(username: string, tokenId: string): (claims: seq<Claim>)
    ensures ClaimValues(claims, NameClaimType) == [username]
    ensures ClaimValues(claims, SubjectClaimType) == [username]
    ensures ClaimValues(claims, TokenIdClaimType) == [tokenId]
    ensures |claims| == 3
  {
    var name, sub, jti := Claim(NameClaimType, username), Claim(SubjectClaimType, username), Claim(TokenIdClaimType, tokenId);
    ClaimValuesOfThree(name, sub, jti, NameClaimType);
    ClaimValuesOfThree(name, sub, jti, SubjectClaimType);
    ClaimValuesOfThree(name, sub, jti, TokenIdClaimType);
    [name, sub, jti]
  }

  function TokenDescriptorFor(settings: JwtSettings, username: string, tokenId: string, expires: Instant)
    : TokenDescriptor
  {
    TokenDescriptor(TokenClaims(username, tokenId), expires, settings.issuer, settings.audience,
                    AsciiBytes(settings.key), HmacSha256Signature)
  }

  /** `POST api/auth/token`. `tokenId` is the fresh GUID of the `jti`
      claim; `expires` and `expiration` are the two readings of "now plus
      the configured minutes", for the token and for the response. */
  function GetToken(request: LoginRequest, settings: JwtSettings, tokenId: string,
                    expires: Instant, expiration: Instant, writeToken: TokenDescriptor -> string)
    : (r: TokenResult)
    ensures r.statusCode == Ok <==> IsValidUser(request.username, request.password)
    ensures r.statusCode != Ok ==>
      && r.statusCode == Unauthorized
      && r.body == LoginResponse(false, None, InvalidCredentialsMessage, MinInstant)
      && r.issued.None?
    ensures r.statusCode == Ok ==>
      && r.issued.Some?
      && r.body == LoginResponse(true, Some(writeToken(r.issued.value)), AuthenticatedMessage, expiration)
      && ClaimValues(r.issued.value.subject, NameClaimType) == [request.username.value]
      && ClaimValues(r.issued.value.subject, SubjectClaimType) == [request.username.value]
      && ClaimValues(r.issued.value.subject, TokenIdClaimType) == [tokenId]
      && r.issued.value.issuer == settings.issuer && r.issued.value.audience == settings.audience
      && r.issued.value.expires == expires
      && r.issued.value.subject == TokenClaims(request.username.value, tokenId)
      && r.issued.value.signingKey == AsciiBytes(settings.key)
      && r.issued.value.algorithm == HmacSha256Signature
  {
    if !IsValidUser(request.username, request.password) then
      TokenResult(Unauthorized, LoginResponse(false, None, InvalidCredentialsMessage, MinInstant), None)
    else
      var descriptor := TokenDescriptorFor(settings, request.username.value, tokenId, expires);
      TokenResult(Ok, LoginResponse(true, Some(writeToken(descriptor)), AuthenticatedMessage, expiration),
                  Some(descriptor))
  }
}
