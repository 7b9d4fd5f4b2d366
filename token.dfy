// utils/token/token.go: where a request carries its token.
module Token {
  import opened GoStrings

  /**
   * ExtractToken, given the "token" query value and the Authorization
   * header value. The scheme word before the space is not looked at.
   */
  function ExtractToken(query: string, authorization: string): (token: string)
    ensures query != "" ==> token == query
    ensures query == "" && Count(authorization, ' ') == 1 ==>
      ' ' in authorization && token == authorization[IndexOf(authorization, ' ') + 1..]
    ensures query == "" && Count(authorization, ' ') != 1 ==> token == ""
  {
    if query != "" then query
    else
      var parts := Split(authorization, ' ');
      if |parts| == 2 then
        SplitAtOnlySeparator(authorization, ' ');
        parts[1]
      else ""
  }

  /** The scheme word is not checked: a Basic header yields its credential as the token. */
  lemma AnySchemeIsAccepted()
    ensures ExtractToken("", "Basic x") == "x"
  {
    var h := "Basic x";
    assert Count(h, ' ') == 1;
    assert h[..5] == "Basic" && ' ' !in h[..5] && h[5] == ' ';
    assert IndexOf(h, ' ') == 5;
  }

  /** A header without exactly one space yields no token. */
  lemma MalformedHeaderGivesNoToken()
    ensures ExtractToken("", "Bearer") == ""
    ensures ExtractToken("", "Bearer a b") == ""
  {
    assert Count("Bearer", ' ') == 0;
    assert Count("Bearer a b", ' ') == 2;
  }

  /** The query parameter wins over the header. */
  lemma QueryParameterWins()
    ensures ExtractToken("q", "Bearer x") == "q"
  {
  }
}
