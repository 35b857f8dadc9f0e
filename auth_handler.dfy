/**
 * The request gate in front of the authenticated routes: it reads the
 * `Authorization` header, hands the bearer token to the access-token
 * verifier, and either rejects the request with status 401 or attaches the
 * decoded claims and a `{telegramId, userId}` session to it and passes it on.
 *
 * The header rule is a loose, case-sensitive version of the Bearer form of
 * section 2.1 of RFC 6750: the header must start with exactly "Bearer ", and
 * the token is the second piece of `header.split(" ")`, i.e. the text between
 * the first and the second space.
 */
module AuthHandler {
  import opened Wrappers
  import opened Text

  /** The `user` claim of a decoded access token; its `_id` may be absent. */
  datatype UserClaim = UserClaim(id: Option<string>)

  /** The claims of a verified access token, as far as the gate reads them. */
  datatype Payload = Payload(telegramId: Option<int>, user: Option<UserClaim>)

  /** `req.session`: what downstream handlers read to know who is calling. */
  datatype Session = Session(telegramId: Option<int>, userId: Option<string>)

  /**
   * The access-token verifier (signature and expiry checks): None for a token
   * that is malformed, expired or badly signed.
   */
  type Verifier = string -> Option<Payload>

  /** What the gate sends back when it stops a request. */
  datatype Reply = Reply(status: int, message: string)

  const Scheme: string := "Bearer "
  const Unauthorized: int := 401
  const MissingMessage: string := "Access token is missing"
  const FormatMessage: string := "Authorization header must be in the format: Bearer <token>"
  const TokenFormatMessage: string := "Invalid token format"
  const ExpiredMessage: string := "Invalid access token or expired"
  const ThrownMessage: string := "JWT token Invalid"

  /** The five ways a request leaves the gate, and the case where reading the claims throws. */
  datatype Outcome =
    | MissingHeader
    | BadScheme
    | EmptyToken
    | InvalidToken
    | ClaimsThrow(decoded: Payload)
    | Accepted(decoded: Payload, session: Session)

  /**
   * `header.split(" ")[1]`, None where JavaScript gives `undefined`: there is
   * a second piece exactly when the header holds a space, and it is the text
   * from just after the first space up to the next space or the end.
   */
  function Token(header: string): (t: Option<string>)
    ensures t.Some? <==> ' ' in header
    ensures t.Some? ==> ' ' !in t.value
    ensures t.Some? ==>
      var rest := header[IndexOf(header, ' ') + 1..];
      t.value == rest[..IndexOf(rest, ' ')]
  {
    var parts := Split(header, ' ');
    if |parts| > 1 then Some(parts[1]) else None
  }

  /** `!token` for a string or `undefined`. */
  predicate Falsy(t: Option<string>)
  {
    t.None? || t.value == ""
  }

  /**
   * The token the gate hands to the verifier, or None when the header is
   * rejected before the verifier is consulted. A passed token is non-empty
   * and space-free, follows the prefix "Bearer " directly, and is followed by
   * a space or the end of the header.
   */
  function TokenPassed(header: Option<string>): (t: Option<string>)
    ensures header.None? || !StartsWith(header.value, Scheme) ==> t.None?
    ensures header.Some? && StartsWith(header.value, Scheme) ==>
      (t.Some? <==> |header.value| > |Scheme| && header.value[|Scheme|] != ' ')
    ensures t.Some? ==>
      && t.value != "" && ' ' !in t.value
      && StartsWith(header.value, Scheme + t.value)
      && (|header.value| == |Scheme| + |t.value| || header.value[|Scheme| + |t.value|] == ' ')
  {
    if header.None? || header.value == "" then None
    else if !StartsWith(header.value, Scheme) then None
    else
      TokenBetweenSpaces(header.value);
      var rest := header.value[|Scheme|..];
      assert |rest| > 0 ==> rest[0] == header.value[|Scheme|];
      if Falsy(Token(header.value)) then None else Token(header.value)
  }

  /**
   * What the gate does with the verifier's answer: no answer is an invalid
   * token; claims without `user` throw; otherwise the request is accepted with
   * the session built from the claims.
   */
  function Decide(decode: Option<Payload>): (o: Outcome)
    ensures o.InvalidToken? <==> decode.None?
    ensures o.Accepted? <==> decode.Some? && decode.value.user.Some?
    ensures o.Accepted? ==> o.decoded == decode.value && o.session == Session(decode.value.telegramId, decode.value.user.value.id)
    ensures o.ClaimsThrow? ==> o.decoded == decode.value
    ensures o !in {MissingHeader, BadScheme, EmptyToken}
  {
    match decode
    case None => InvalidToken
    case Some(d) =>
      match d.user
      case None => ClaimsThrow(d)
      case Some(u) => Accepted(d, Session(d.telegramId, u.id))
  }

  /** The gate's decision for a header, as a function of the header and the verifier. */
  function Gate(header: Option<string>, verify: Verifier): Outcome
  {
    if header.None? || header.value == "" then MissingHeader
    else if !StartsWith(header.value, Scheme) then BadScheme
    else
      var token := Token(header.value);
      if Falsy(token) then EmptyToken
      else Decide(verify(token.value))
  }

  /** The reply the gate sends, or None when it calls `next()` instead. */
  function ReplyOf(o: Outcome): (r: Option<Reply>)
    ensures r.None? <==> o.Accepted?
    ensures r.Some? ==> r.value.status == Unauthorized
  {
    match o
    case MissingHeader => Some(Reply(Unauthorized, MissingMessage))
    case BadScheme => Some(Reply(Unauthorized, FormatMessage))
    case EmptyToken => Some(Reply(Unauthorized, TokenFormatMessage))
    case InvalidToken => Some(Reply(Unauthorized, ExpiredMessage))
    case ClaimsThrow(_) => Some(Reply(Unauthorized, ThrownMessage))
    case Accepted(_, _) => None
  }

  /**
   * After the exact prefix "Bearer ", the token is the text up to the next
   * space (or to the end): it never holds a space, and the header starts with
   * "Bearer " followed by it.
   */
  lemma TokenBetweenSpaces(header: string)
    requires StartsWith(header, Scheme)
    ensures var rest := header[|Scheme|..];
      Token(header) == Some(rest[..IndexOf(rest, ' ')])
    ensures Token(header).Some? && ' ' !in Token(header).value
    ensures Token(header).Some? && StartsWith(header, Scheme + Token(header).value)
  {
    var rest := header[|Scheme|..];
    assert header == "Bearer" + [' '] + rest;
    IndexOfAfterPrefix("Bearer", ' ', rest);
    assert header[..6] == "Bearer";
    var parts := Split(header, ' ');
    assert parts == [header[..6]] + Split(rest, ' ');
    assert header[..|Scheme| + IndexOf(rest, ' ')] == Scheme + rest[..IndexOf(rest, ' ')];
  }

  /**
   * The verifier is consulted exactly on the token `TokenPassed` names: the
   * outcome does not depend on the verifier otherwise, and the first three
   * rejections do not consult it at all.
   */
  lemma VerifierSeesOnlyToken(header: Option<string>, v1: Verifier, v2: Verifier)
    requires TokenPassed(header).None? || v1(TokenPassed(header).value) == v2(TokenPassed(header).value)
    ensures Gate(header, v1) == Gate(header, v2)
    ensures TokenPassed(header).None? <==> Gate(header, v1) in {MissingHeader, BadScheme, EmptyToken}
    ensures TokenPassed(header).Some? ==> Gate(header, v1) == Decide(v1(TokenPassed(header).value))
  {
  }

  /**
   * The request passes the gate exactly when the header starts with "Bearer ",
   * the token after it is not empty, the verifier accepts that token, and its
   * claims carry a `user`; the session then holds the claims' Telegram id and
   * user id.
   */
  lemma AcceptedExactly(header: Option<string>, verify: Verifier)
    ensures Gate(header, verify).Accepted? <==>
      exists t: string, d: Payload ::
        && TokenPassed(header) == Some(t)
        && verify(t) == Some(d)
        && d.user.Some?
    ensures Gate(header, verify).Accepted? ==>
      var o := Gate(header, verify);
      && Some(o.decoded) == verify(TokenPassed(header).value)
      && o.session == Session(o.decoded.telegramId, o.decoded.user.value.id)
  {
    if Gate(header, verify).Accepted? {
      var t := TokenPassed(header).value;
      var d := verify(t).value;
      assert TokenPassed(header) == Some(t) && verify(t) == Some(d) && d.user.Some?;
    }
  }

  /** A missing or empty header, and headers without the exact, case-sensitive "Bearer " prefix. */
  lemma EarlyRejectExamples(verify: Verifier)
    ensures Gate(None, verify) == MissingHeader
    ensures Gate(Some(""), verify) == MissingHeader
    ensures Gate(Some("Token abc"), verify) == BadScheme
    ensures Gate(Some("bearer abc"), verify) == BadScheme
  {
    assert "Token abc"[..7][0] == 'T';
    assert "bearer abc"[..7][0] == 'b';
  }

  /** "Bearer " with nothing after it, and a second space right after the prefix, give an empty token. */
  lemma EmptyTokenExamples(verify: Verifier)
    ensures Gate(Some("Bearer "), verify) == EmptyToken
    ensures Gate(Some("Bearer  x"), verify) == EmptyToken
  {
    assert "Bearer  x" == Scheme + " x";
    assert "Bearer  x"[..|Scheme|] == Scheme && "Bearer  x"[|Scheme|] == ' ';
    EmptyTokenExactly("Bearer ", verify);
    EmptyTokenExactly("Bearer  x", verify);
  }

  /**
   * The ordinary header: after "Bearer ", any non-empty, space-free token is
   * exactly what reaches the verifier.
   */
  lemma PlainBearerToken(x: string, verify: Verifier)
    requires x != "" && ' ' !in x
    ensures TokenPassed(Some(Scheme + x)) == Some(x)
    ensures Gate(Some(Scheme + x), verify) == Decide(verify(x))
  {
    var h := Scheme + x;
    assert h[..|Scheme|] == Scheme && h[|Scheme|..] == x;
    TokenBetweenSpaces(h);
    assert IndexOf(x, ' ') == |x|;
    assert x[..|x|] == x;
    assert Token(h) == Some(x);
    assert h != "" && StartsWith(h, Scheme);
  }

  /**
   * With the prefix in place, the token is empty exactly when nothing follows
   * "Bearer " or a second space follows it at once.
   */
  lemma EmptyTokenExactly(h: string, verify: Verifier)
    requires StartsWith(h, Scheme)
    ensures Gate(Some(h), verify) == EmptyToken <==> |h| == |Scheme| || h[|Scheme|] == ' '
  {
    assert TokenPassed(Some(h)).None? <==> Gate(Some(h), verify) in {MissingHeader, BadScheme, EmptyToken};
  }

  /**
   * Only the piece between the first and the second space reaches the
   * verifier: for "Bearer a b" that is "a", whatever follows the second space.
   */
  lemma SecondPieceOnly(x: string, y: string, verify: Verifier)
    requires x != "" && ' ' !in x
    ensures TokenPassed(Some(Scheme + x + " " + y)) == Some(x)
    ensures Gate(Some(Scheme + x + " " + y), verify) == Decide(verify(x))
  {
    var h := Scheme + x + " " + y;
    var rest := x + " " + y;
    assert h[..|Scheme|] == Scheme && h[|Scheme|..] == rest;
    TokenBetweenSpaces(h);
    IndexOfAfterPrefix(x, ' ', y);
    assert rest == x + [' '] + y;
    assert rest[..|x|] == x;
  }

  /** The inbound request as the gate sees and changes it. */
  class Request {
    /** `req.headers["authorization"]`. */
    const authorization: Option<string>
    /** `req.user`: the decoded claims. */
    var user: Option<Payload>
    /** `req.session`. */
    var session: Option<Session>
    /** What has been sent on the matching response, if anything. */
    var reply: Option<Reply>

    constructor (authorization: Option<string>)
      ensures this.authorization == authorization
      ensures user.None? && session.None? && reply.None?
    {
      this.authorization := authorization;
      user, session, reply := None, None, None;
    }
  }

  /**
   * The middleware: the same branches as `Gate`, taken one after the other on
   * the live request. `nextCalls` is how many times `next()` was called.
   */
  method Handle(req: Request, verify: Verifier) returns (nextCalls: nat)
    modifies req
    ensures var o := Gate(req.authorization, verify);
      && nextCalls == (if o.Accepted? then 1 else 0)
      && req.reply == (if o.Accepted? then old(req.reply) else ReplyOf(o))
      && req.user == (if o.Accepted? || o.ClaimsThrow? then Some(o.decoded) else old(req.user))
      && req.session == (if o.Accepted? then Some(o.session) else old(req.session))
  {
    nextCalls := 0;
    var header := req.authorization;
    if header.None? || header.value == "" {
      req.reply := Some(Reply(Unauthorized, MissingMessage));
      return;
    }
    if !StartsWith(header.value, Scheme) {
      req.reply := Some(Reply(Unauthorized, FormatMessage));
      return;
    }
    var token := Token(header.value);
    if Falsy(token) {
      req.reply := Some(Reply(Unauthorized, TokenFormatMessage));
      return;
    }
    var decode := verify(token.value);
    if decode.None? {
      req.reply := Some(Reply(Unauthorized, ExpiredMessage));
      return;
    }
    req.user := decode;
    // Reading `decode.user._id` throws when the claims have no `user`; the
    // catch block answers with the generic message.
    if decode.value.user.None? {
      req.reply := Some(Reply(Unauthorized, ThrownMessage));
      return;
    }
    req.session := Some(Session(decode.value.telegramId, decode.value.user.value.id));
    nextCalls := nextCalls + 1;
  }
}
