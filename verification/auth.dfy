/** `AuthMiddleware` of the Go service as a pure decision on the value of the
    `Authorization` header and the configured token. */
module Auth {
  import opened Wrappers
  import opened Text

  /** Whether the request reaches the next handler, or is aborted with a status
      and the `error` member of the JSON body. */
  datatype Decision = Forward | Reject(status: int, error: string)

  const MissingHeader: string := "Authorization header required"
  const BadFormat: string := "Invalid authorization format. Use: Bearer <token>"
  const BadToken: string := "Invalid or expired token"

  /** The position of the first space, if there is one. */
  function IndexOfSpace(s: string): (r: Option<nat>)
    ensures r.None? <==> forall k :: 0 <= k < |s| ==> s[k] != ' '
    ensures r.Some? ==> r.value < |s| && s[r.value] == ' '
                        && forall k :: 0 <= k < r.value ==> s[k] != ' '
  {
    if s == [] then None
    else if s[0] == ' ' then Some(0)
    else match IndexOfSpace(s[1..])
      case None => None
      case Some(i) => Some(i + 1)
  }

  /** `strings.SplitN(s, " ", 2)`: the whole string when it has no space, otherwise
      the part before the first space and everything after it. */
  function SplitAtFirstSpace(s: string): (r: seq<string>)
    ensures |r| == 1 || |r| == 2
    ensures |r| == 1 <==> forall k :: 0 <= k < |s| ==> s[k] != ' '
    ensures |r| == 1 ==> r[0] == s
    ensures |r| == 2 ==> (s == r[0] + " " + r[1]
                          && forall k :: 0 <= k < |r[0]| ==> r[0][k] != ' ')
  {
    match IndexOfSpace(s)
    case None => [s]
    case Some(i) =>
      assert s == s[..i] + " " + s[i + 1..];
      [s[..i], s[i + 1..]]
  }

  /** The header starts with a scheme that lower-cases to "bearer" and one space. */
  predicate BearerScheme(header: string) {
    |header| >= 7 && Lower(header[..6]) == "bearer" && header[6] == ' '
  }

  /** A word that lower-cases to "bearer" contains no space. */
  lemma BearerWordHasNoSpace(w: string)
    requires Lower(w) == "bearer"
    ensures |w| == 6 && forall k :: 0 <= k < |w| ==> w[k] != ' '
  {
    forall k | 0 <= k < |w|
      ensures w[k] != ' '
    {
      assert Lower(w)[k] == LowerChar(w[k]) != ' ';
    }
  }

  /** The split of a header with a bearer scheme: the scheme, then the rest. */
  lemma {:induction false} SplitOfBearer(header: string)
    ensures BearerScheme(header) ==> SplitAtFirstSpace(header) == [header[..6], header[7..]]
  {
    if BearerScheme(header) {
      BearerWordHasNoSpace(header[..6]);
      assert forall k :: 0 <= k < 6 ==> header[k] == header[..6][k];
      var i := IndexOfSpace(header);
      assert i == Some(6);
    }
  }

  /** The middleware's decision. The three checks run in order: a missing
      header, then the shape of the header, then the token. */
  function Authorize(header: string, validToken: string): (r: Decision)
    ensures r.Reject? ==> r.status == 401
    ensures r == Reject(401, MissingHeader) <==> header == ""
    ensures r == Reject(401, BadFormat) <==> header != "" && !BearerScheme(header)
    ensures r == Reject(401, BadToken) <==> BearerScheme(header) && header[7..] != validToken
    ensures r == Forward <==> BearerScheme(header) && header[7..] == validToken
  {
    if header == "" then Reject(401, MissingHeader)
    else
      var parts := SplitAtFirstSpace(header);
      if |parts| != 2 || Lower(parts[0]) != "bearer" then
        SplitOfBearer(header);
        Reject(401, BadFormat)
      else
        BearerWordHasNoSpace(parts[0]);
        assert header[..6] == parts[0] && header[6] == ' ';
        if parts[1] != validToken then Reject(401, BadToken)
        else Forward
  }

  /** A request is forwarded exactly when its header is some spelling of
      "bearer", one space, and the configured token. */
  lemma {:induction false} ForwardIffBearerToken(header: string, validToken: string)
    ensures Authorize(header, validToken) == Forward <==>
              exists scheme :: Lower(scheme) == "bearer" && header == scheme + " " + validToken
  {
    if Authorize(header, validToken) == Forward {
      var scheme := header[..6];
      assert header == scheme + " " + validToken;
    }
    if exists scheme :: Lower(scheme) == "bearer" && header == scheme + " " + validToken {
      var scheme :| Lower(scheme) == "bearer" && header == scheme + " " + validToken;
      assert |scheme| == 6;
      assert header[..6] == scheme && header[7..] == validToken;
    }
  }

  /** The scheme is matched without regard to ASCII case. */
  lemma AnyCaseOfBearer(validToken: string)
    ensures Authorize("Bearer " + validToken, validToken) == Forward
    ensures Authorize("BEARER " + validToken, validToken) == Forward
  {
    var h1 := "Bearer " + validToken;
    assert h1[..6] == "Bearer" && h1[6] == ' ' && h1[7..] == validToken;
    assert Lower("Bearer") == "bearer" by {
      assert LowerChar('B') == 'b';
    }
    var h2 := "BEARER " + validToken;
    assert h2[..6] == "BEARER" && h2[6] == ' ' && h2[7..] == validToken;
    assert Lower("BEARER") == "bearer" by {
      assert LowerChar('B') == 'b' && LowerChar('E') == 'e' && LowerChar('A') == 'a' && LowerChar('R') == 'r';
    }
  }
}
