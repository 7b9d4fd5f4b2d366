// services/JWTService.go: the Bearer scheme reader.
module JWTService {
  import opened GoStrings
  import Token

  const BearerPrefix: string := "Bearer "

  /** bearerAuth, given the Authorization header value. */
  function BearerAuth(authorization: string): (token: string)
    ensures !HasPrefix(authorization, BearerPrefix) ==> token == ""
    ensures HasPrefix(authorization, BearerPrefix) ==> authorization == BearerPrefix + token
  {
    if authorization == "" then ""
    else if !HasPrefix(authorization, BearerPrefix) then ""
    else authorization[|BearerPrefix|..]
  }

  lemma BearerAuthRoundTrip(token: string)
    ensures BearerAuth(BearerPrefix + token) == token
  {
    assert (BearerPrefix + token)[..|BearerPrefix|] == BearerPrefix;
  }

  lemma BearerAuthEdges()
    ensures BearerAuth("") == ""
    ensures BearerAuth("Bearer ") == ""
    ensures BearerAuth("bearer x") == ""
    ensures BearerAuth("Basic x") == ""
  {
    assert "Bearer "[..|BearerPrefix|] == BearerPrefix;
    assert "bearer x"[0] != BearerPrefix[0];
  }

  /** For a token without spaces the two extractors agree on a Bearer header. */
  lemma {:induction false} ExtractorsAgreeOnBearer(token: string)
    requires ' ' !in token
    ensures Token.ExtractToken("", BearerPrefix + token) == BearerAuth(BearerPrefix + token) == token
  {
    var h := BearerPrefix + token;
    CountAbsent(token, ' ');
    CountAppend(BearerPrefix, token, ' ');
    assert Count(BearerPrefix, ' ') == 1;
    assert h[6] == ' ' && ' ' !in h[..6];
    assert IndexOf(h, ' ') == 6;
    assert h[7..] == token;
    BearerAuthRoundTrip(token);
  }

  /** Where they part: another scheme is read by one extractor only. */
  lemma ExtractorsDisagreeOnScheme()
    ensures Token.ExtractToken("", "Basic x") == "x" && BearerAuth("Basic x") == ""
  {
    Token.AnySchemeIsAccepted();
    assert "Basic x"[1] != BearerPrefix[1];
  }

  /** A token with a space in it is read by the Bearer reader only. */
  lemma ExtractorsDisagreeOnSpacedToken()
    ensures Token.ExtractToken("", "Bearer a b") == "" && BearerAuth("Bearer a b") == "a b"
  {
    Token.MalformedHeaderGivesNoToken();
    BearerAuthRoundTrip("a b");
    assert BearerPrefix + "a b" == "Bearer a b";
  }
}
