/** The bearer-token gate every protected handler runs first: take the
    second space-separated field of the Authorization header, check it with
    `jwt.verify`, then either store the decoded payload on the request and
    continue, or answer 401 and stop. */
module VerifyToken {

  import opened Js

  /** The claims of a token `jwt.verify` accepts (login signs `id` and `email`). */
  datatype Payload = Payload(id: Option<int>, email: Option<string>)

  /** `jwt.verify(token, JWT_SECRET)`: the payload, or None when it throws. */
  type Verifier = string -> Option<Payload>

  /** `req.headers.authorization?.split(' ')[1]`: None stands for `undefined`. */
  function BearerToken(header: Option<string>): Option<string> {
    match header
    case None => None
    case Some(h) =>
      var fields := Split(h, ' ');
      if |fields| >= 2 then Some(fields[1]) else None
  }

  /** The outcome of the gate: continue with the payload, or the 401 message sent. */
  datatype GateResult = Passed(user: Payload) | Rejected(error: string)

  /** What `verifyToken` decides for a header, with `jwt.verify` as an oracle. */
  function Gate(header: Option<string>, verify: Verifier): GateResult {
    var token := BearerToken(header);
    if token.None? || token.value == "" then Rejected("Unauthorized")
    else
      match verify(token.value)
      case Some(p) => Passed(p)
      case None => Rejected("Invalid token")
  }

  /** The user id a handler proceeds with after the gate: `req.user?.id`
      when it is truthy. */
  function AdmittedUser(header: Option<string>, verify: Verifier): (id: Option<int>)
    ensures id.Some? <==> Gate(header, verify).Passed? && Gate(header, verify).user.id.Some?
                          && Gate(header, verify).user.id.value != 0
    ensures id.Some? ==> id == Gate(header, verify).user.id
  {
    match Gate(header, verify)
    case Rejected(_) => None
    case Passed(user) => if user.id.None? || user.id.value == 0 then None else user.id
  }

  /** The token is the second field whatever the first word is: any scheme,
      not only `Bearer`, followed by one space and a space-free token. */
  lemma {:induction false} TokenAfterAnyScheme(scheme: string, token: string, rest: string)
    requires ' ' !in scheme && ' ' !in token
    requires rest == [] || rest[0] == ' '
    ensures BearerToken(Some(scheme + " " + token + rest)) == Some(token)
  {
    var t := token + rest;
    assert scheme + " " + token + rest == scheme + [' '] + t;
    SplitFirst(scheme, ' ', t);
    FirstField(token, rest);
  }

  /** A space-free word followed by nothing or by a space is the first field. */
  lemma FirstField(token: string, rest: string)
    requires ' ' !in token
    requires rest == [] || rest[0] == ' '
    ensures Split(token + rest, ' ')[0] == token
  {
    if rest == [] {
      assert token + rest == token;
      SplitAlone(token, ' ');
    } else {
      assert rest == [' '] + rest[1..];
      assert token + rest == token + [' '] + rest[1..];
      SplitFirst(token, ' ', rest[1..]);
    }
  }

  /** A header without a space has no second field: 401 `Unauthorized`. */
  lemma NoSpaceRejected(h: string, verify: Verifier)
    requires ' ' !in h
    ensures BearerToken(Some(h)) == None
    ensures Gate(Some(h), verify) == Rejected("Unauthorized")
  {
    SplitUnique([h], ' ');
  }

  /** Two spaces after the first word leave an empty second field: 401 `Unauthorized`. */
  lemma {:induction false} DoubleSpaceRejected(scheme: string, rest: string, verify: Verifier)
    requires ' ' !in scheme
    ensures BearerToken(Some(scheme + "  " + rest)) == Some("")
    ensures Gate(Some(scheme + "  " + rest), verify) == Rejected("Unauthorized")
  {
    TokenAfterAnyScheme(scheme, "", " " + rest);
    assert scheme + " " + "" + (" " + rest) == scheme + "  " + rest;
  }

  /** The request object: the header it carries and the `user` the gate sets. */
  class Request {
    const authorization: Option<string>
    var user: Option<Payload>

    constructor (authorization: Option<string>)
      ensures this.authorization == authorization && user == None
    {
      this.authorization := authorization;
      user := None;
    }
  }

  /** The response object: the status and `{ error }` body, once sent. */
  class Response {
    var status: Option<nat>
    var error: Option<string>

    constructor ()
      ensures status == None && error == None
    {
      status, error := None, None;
    }
  }

  /** `verifyToken(req, res, next)`: returns how many times `next` was called. */
  method Verify(req: Request, res: Response, verify: Verifier) returns (nextCalls: nat)
    modifies req`user, res
    ensures Gate(req.authorization, verify).Passed? ==>
      && nextCalls == 1
      && req.user == Some(Gate(req.authorization, verify).user)
      && res.status == old(res.status) && res.error == old(res.error)
    ensures Gate(req.authorization, verify).Rejected? ==>
      && nextCalls == 0
      && req.user == old(req.user)
      && res.status == Some(401)
      && res.error == Some(Gate(req.authorization, verify).error)
  {
    var token := BearerToken(req.authorization);
    if token.None? || token.value == "" {
      res.status, res.error := Some(401), Some("Unauthorized");
      return 0;
    }
    var decoded := verify(token.value);
    if decoded.Some? {
      req.user := decoded;
      nextCalls := 1;
    } else {
      res.status, res.error := Some(401), Some("Invalid token");
      nextCalls := 0;
    }
  }
}
