/** Access control (backend/src/middleware/authenticateToken.ts, repeated
    verbatim in backend/src/routes/auth.ts): the token taken from the
    Authorization header, the outcome of the token check, and the role
    ranking behind `checkPermission`. Token verification (the JWT signature
    and expiry check) is a parameter. */
module Access {

  import opened Rows

  // ---------------------------------------------------------------------------
  // `split(' ')`
  // ---------------------------------------------------------------------------

  /** JavaScript's `s.split(' ')`: the pieces between single spaces, empty
      pieces included (two spaces in a row give an empty piece). */
  function Split(s: string): (parts: seq<string>)
    ensures |parts| >= 1
    ensures forall i :: 0 <= i < |parts| ==> ' ' !in parts[i]
    decreases |s|
  {
    if s == [] then [""]
    else
      var rest := Split(s[1..]);
      if s[0] == ' ' then [""] + rest
      else
        assert ' ' !in [s[0]] + rest[0];
        [[s[0]] + rest[0]] + rest[1..]
  }

  /** `parts.join(' ')`. */
  function Join(parts: seq<string>): string
    requires |parts| >= 1
  {
    if |parts| == 1 then parts[0] else parts[0] + " " + Join(parts[1..])
  }

  /** A word without spaces in front of `t` joins the first piece of `t`. */
  lemma {:induction false} SplitWord(a: string, t: string)
    requires ' ' !in a
    ensures Split(a + t) == [a + Split(t)[0]] + Split(t)[1..]
    decreases |a|
  {
    if a == [] {
      assert a + t == t;
      assert a + Split(t)[0] == Split(t)[0];
      assert Split(t) == [Split(t)[0]] + Split(t)[1..];
    } else {
      assert (a + t)[1..] == a[1..] + t;
      assert (a + t)[0] == a[0];
      SplitWord(a[1..], t);
      var rest := Split(a[1..] + t);
      assert rest[0] == a[1..] + Split(t)[0] && rest[1..] == Split(t)[1..];
      assert [a[0]] + (a[1..] + Split(t)[0]) == a + Split(t)[0];
    }
  }

  /** A word without spaces followed by a space is a piece of its own. */
  lemma SplitSpace(a: string, t: string)
    requires ' ' !in a
    ensures Split(a + " " + t) == [a] + Split(t)
  {
    assert a + " " + t == a + (" " + t);
    assert (" " + t)[0] == ' ' && (" " + t)[1..] == t;
    assert Split(" " + t) == [""] + Split(t);
    SplitWord(a, " " + t);
    assert a + "" == a;
  }

  /** Joining the pieces gives back the header. */
  lemma {:induction false} JoinSplit(s: string)
    ensures Join(Split(s)) == s
    decreases |s|
  {
    if s != [] {
      JoinSplit(s[1..]);
      var rest := Split(s[1..]);
      if s[0] == ' ' {
        assert s == " " + s[1..];
        if |rest| == 1 {
          assert Join(rest) == rest[0];
        }
      } else {
        assert s == [s[0]] + s[1..];
        if |rest| > 1 {
          assert Join(rest) == rest[0] + " " + Join(rest[1..]);
        }
      }
    }
  }

  /** Splitting pieces without spaces that were joined gives back the pieces. */
  lemma {:induction false} SplitJoin(parts: seq<string>)
    requires |parts| >= 1
    requires forall i :: 0 <= i < |parts| ==> ' ' !in parts[i]
    ensures Split(Join(parts)) == parts
  {
    if |parts| == 1 {
      SplitWord(parts[0], "");
      assert parts[0] + "" == parts[0];
    } else {
      SplitJoin(parts[1..]);
      SplitSpace(parts[0], Join(parts[1..]));
      assert parts == [parts[0]] + parts[1..];
    }
  }

  // ---------------------------------------------------------------------------
  // authenticateToken
  // ---------------------------------------------------------------------------

  /** The decoded token: what login signs and what the check attaches to the request. */
  datatype TokenPayload = TokenPayload(userId: int, role: string)

  /** `authHeader && authHeader.split(' ')[1]`, read as a condition: a
      missing or empty header, a header without a space and an empty second
      piece all give no token. The scheme word is not looked at. */
  function ExtractToken(header: Option<string>): (token: Option<string>)
    ensures token.Some? ==> token.value != "" && ' ' !in token.value
    ensures token.Some? ==> header.Some? && |Split(header.value)| >= 2 && token.value == Split(header.value)[1]
  {
    match header
    case None => None
    case Some(h) =>
      if h == "" then None
      else
        var parts := Split(h);
        if |parts| >= 2 && parts[1] != "" then Some(parts[1]) else None
  }

  /** Every header that has a space reads as `scheme SP token rest`, where
      `rest` is empty or starts with the next space: the token is the text
      between the first two spaces, and an empty one is no token. */
  lemma ExtractTokenShape(scheme: string, token: string, rest: string)
    requires ' ' !in scheme && ' ' !in token
    requires rest == [] || rest[0] == ' '
    ensures ExtractToken(Some(scheme + " " + token + rest)) == if token == "" then None else Some(token)
  {
    var h := scheme + " " + token + rest;
    assert h == scheme + " " + (token + rest);
    SplitSpace(scheme, token + rest);
    SplitWord(token, rest);
    if rest != [] {
      assert rest == "" + " " + rest[1..];
      SplitSpace("", rest[1..]);
    } else {
      assert Split(rest) == [""];
    }
    assert Split(rest)[0] == "";
    assert |h| > 0;
    assert Split(h) == [scheme] + Split(token + rest);
    assert Split(h)[1] == token;
  }

  /** The `Bearer` form of section 2.1 of RFC 6750 yields its token. */
  lemma BearerToken(token: string)
    requires token != "" && ' ' !in token
    ensures ExtractToken(Some("Bearer " + token)) == Some(token)
  {
    assert "Bearer " + token == "Bearer" + " " + token + "";
    ExtractTokenShape("Bearer", token, "");
  }

  /** "Bearer " and "Bearer  abc" (two spaces) carry no token. */
  lemma EmptySecondPiece()
    ensures ExtractToken(Some("Bearer ")) == None
    ensures ExtractToken(Some("Bearer  abc")) == None
  {
    ExtractTokenShape("Bearer", "", "");
    assert "Bearer " == "Bearer" + " " + "" + "";
    ExtractTokenShape("Bearer", "", " abc");
    assert "Bearer  abc" == "Bearer" + " " + "" + " abc";
  }

  /** A header without a space carries no token. */
  lemma NoSpaceNoToken(h: string)
    requires ' ' !in h
    ensures ExtractToken(Some(h)) == None
  {
    SplitWord(h, "");
    assert h + "" == h;
  }

  /** What the request handler sees: 401, 403, or the decoded user passed on to `next`. */
  datatype AuthOutcome =
    | Unauthorized(error: string)
    | Forbidden(error: string)
    | Next(user: TokenPayload)

  /** The token check; `verify` is the JWT verification with the server
      secret (None when the signature or expiry is rejected). */
  function AuthenticateToken(header: Option<string>, verify: string -> Option<TokenPayload>): (r: AuthOutcome)
    ensures r.Unauthorized? <==> ExtractToken(header).None?
    ensures r.Unauthorized? ==> r.error == "Access token required"
    ensures r.Forbidden? <==> ExtractToken(header).Some? && verify(ExtractToken(header).value).None?
    ensures r.Forbidden? ==> r.error == "Invalid token"
    ensures r.Next? ==> Some(r.user) == verify(ExtractToken(header).value)
  {
    match ExtractToken(header)
    case None => Unauthorized("Access token required")
    case Some(token) =>
      match verify(token)
      case None => Forbidden("Invalid token")
      case Some(user) => Next(user)
  }

  /** A well-formed Bearer header with a token that verifies reaches the handler with its payload. */
  lemma BearerAuthenticates(token: string, verify: string -> Option<TokenPayload>, user: TokenPayload)
    requires token != "" && ' ' !in token && verify(token) == Some(user)
    ensures AuthenticateToken(Some("Bearer " + token), verify) == Next(user)
  {
    BearerToken(token);
  }

  // ---------------------------------------------------------------------------
  // checkPermission
  // ---------------------------------------------------------------------------

  /** The role table { user: 1, manager: 2, admin: 3 }; any other role has no rank. */
  function Rank(role: string): (r: Option<int>)
    ensures r.Some? <==> role == "user" || role == "manager" || role == "admin"
    ensures r.Some? ==> 1 <= r.value <= 3
    ensures role == "user" ==> r == Some(1)
    ensures role == "manager" ==> r == Some(2)
    ensures role == "admin" ==> r == Some(3)
  {
    if role == "user" then Some(1)
    else if role == "manager" then Some(2)
    else if role == "admin" then Some(3)
    else None
  }

  /** JavaScript's `<` on two table lookups: comparing with an undefined
      entry (NaN) is false. */
  predicate RankBelow(a: Option<int>, b: Option<int>) {
    a.Some? && b.Some? && a.value < b.value
  }

  datatype PermissionOutcome = Denied(error: string) | Granted

  /** The check placed after `authenticateToken` on a route that needs `requiredRole`. */
  function CheckPermission(user: TokenPayload, requiredRole: string): (r: PermissionOutcome)
    ensures r.Denied? ==> r.error == "Insufficient permissions"
    ensures r.Denied? <==> Rank(user.role).Some? && Rank(requiredRole).Some? &&
                           Rank(user.role).value < Rank(requiredRole).value
  {
    if RankBelow(Rank(user.role), Rank(requiredRole)) then Denied("Insufficient permissions") else Granted
  }

  /** For two known roles the check denies exactly when the user's rank is lower. */
  lemma CheckPermissionRanks(user: TokenPayload, requiredRole: string)
    requires Rank(user.role).Some? && Rank(requiredRole).Some?
    ensures CheckPermission(user, requiredRole).Denied? <==> Rank(user.role).value < Rank(requiredRole).value
  {
  }

  /** user < manager < admin, and an equal role passes. */
  lemma RoleOrder(id: int)
    ensures CheckPermission(TokenPayload(id, "user"), "manager").Denied?
    ensures CheckPermission(TokenPayload(id, "manager"), "admin").Denied?
    ensures CheckPermission(TokenPayload(id, "admin"), "manager") == Granted
    ensures CheckPermission(TokenPayload(id, "manager"), "user") == Granted
    ensures CheckPermission(TokenPayload(id, "admin"), "admin") == Granted
  {
  }

  /** Passing for a role means passing for every known role ranked no higher. */
  lemma CheckPermissionMonotone(user: TokenPayload, required: string, lower: string)
    requires CheckPermission(user, required) == Granted
    requires Rank(required).Some? && Rank(lower).Some? && Rank(lower).value <= Rank(required).value
    ensures CheckPermission(user, lower) == Granted
  {
  }

  /** A role missing from the table is never denied, whatever the requirement. */
  lemma UnknownRolePasses(user: TokenPayload, requiredRole: string)
    requires user.role != "user" && user.role != "manager" && user.role != "admin"
    ensures CheckPermission(user, requiredRole) == Granted
  {
  }
}
