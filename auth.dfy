/** The token checks every protected action repeats inline: the bearer token
    is taken from the `Authorization` header, verified, and for the admin
    actions its role is compared with `admin`. Signature and expiry checking
    is an oracle `verify`, which yields the token's claims or nothing. */
module Auth {
  import opened Model
  import opened Seqs

  /** `h.split(' ')[1]`: the text between the first and the second space
      (or the end), absent when `h` has no space. */
  function SecondField(h: string): Option<string>
  {
    var i := FirstIndex(h, c => c == ' ');
    if i < 0 then None
    else
      var rest := h[i + 1..];
      var j := FirstIndex(rest, c => c == ' ');
      Some(if j < 0 then rest else rest[..j])
  }

  /** `authHeader && authHeader.split(' ')[1]` followed by the `!token` test:
      a missing header, a header without a second field, and an empty second
      field all carry no token. */
  function BearerToken(header: Option<string>): (t: Option<string>)
    ensures t.Some? ==> t.value != [] && ' ' !in t.value
    ensures header.None? ==> t.None?
  {
    match header
    case None => None
    case Some(h) =>
      var f := SecondField(h);
      if f.None? || f.value == [] then None else f
  }

  /** A header `"<scheme> <token>"` yields exactly the token. */
  lemma BearerTokenOfHeader(scheme: string, token: string)
    requires ' ' !in scheme && ' ' !in token && token != []
    ensures BearerToken(Some(scheme + " " + token)) == Some(token)
  {
    var h := scheme + " " + token;
    assert forall k :: 0 <= k < |scheme| ==> h[k] == scheme[k];
    assert h[|scheme|] == ' ';
    assert FirstIndex(h, c => c == ' ') == |scheme|;
    assert h[|scheme| + 1..] == token;
  }

  /** A header with no space carries no token: the server answers 401. */
  lemma NoSpaceNoToken(h: string)
    requires ' ' !in h
    ensures BearerToken(Some(h)) == None
  {
    assert forall k :: 0 <= k < |h| ==> h[k] != ' ';
  }

  /** The outcome of the inline token check. */
  datatype Auth = MissingToken | InvalidToken | Verified(claims: Claims)

  /** The inline token check: no token is 401, a token `verify` rejects is
      403, and otherwise the action runs with the token's claims. */
  function Authenticate(header: Option<string>, verify: string -> Option<Claims>): (a: Auth)
    ensures a.MissingToken? <==> BearerToken(header).None?
    ensures a.InvalidToken? <==> BearerToken(header).Some? && verify(BearerToken(header).value).None?
    ensures a.Verified? ==> Some(a.claims) == verify(BearerToken(header).value)
  {
    match BearerToken(header)
    case None => MissingToken
    case Some(t) =>
      match verify(t)
      case None => InvalidToken
      case Some(c) => Verified(c)
  }

  /** A well-formed `Bearer` header is decided by `verify` alone. */
  lemma AuthenticateHeader(scheme: string, token: string, verify: string -> Option<Claims>)
    requires ' ' !in scheme && ' ' !in token && token != []
    ensures Authenticate(Some(scheme + " " + token), verify) ==
      if verify(token).Some? then Verified(verify(token).value) else InvalidToken
  {
    BearerTokenOfHeader(scheme, token);
  }

  /** The answer of a protected action when the token check fails. */
  function Refusal(a: Auth): (r: Response)
    requires !a.Verified?
    ensures r.Err?
    ensures r.status == 401 <==> a.MissingToken?
    ensures r.status == 403 <==> a.InvalidToken?
  {
    if a.MissingToken? then Err(401, "Authentication required") else Err(403, "Invalid token")
  }

  /** The admin gate: the refusal an admin action answers with, or nothing
      when the caller holds a verified token whose role is `admin`. */
  function AdminRefusal(a: Auth): (r: Option<Response>)
    ensures r.None? <==> a.Verified? && a.claims.role == "admin"
    ensures r.Some? ==> r.value.Err?
    ensures r.Some? ==> (r.value.status == 401 <==> a.MissingToken?)
    ensures r.Some? ==> (r.value.status == 403 <==> !a.MissingToken?)
  {
    match a
    case Verified(c) => if c.role == "admin" then None else Some(Err(403, "Admin access required"))
    case _ => Some(Refusal(a))
  }

  /** With no header at all every admin action is refused with 401, whatever
      the verifier would say. */
  lemma NoHeaderIsUnauthenticated(verify: string -> Option<Claims>)
    ensures AdminRefusal(Authenticate(None, verify)) == Some(Err(401, "Authentication required"))
  {
  }
}
