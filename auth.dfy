/** The authentication and authorisation middleware: the bearer token is taken from
    the Authorization header and checked by the token verifier, and the role and
    ownership gates decide from the decoded user's profile and id. */
module Auth {
  import opened Base
  import opened Text
  import opened JsModel

  /** The four profiles of `USER_ROLES`. */
  const UserRoles: seq<string> := ["admin", "facilitador", "participante", "coordenador"]

  lemma UserRolesExactly()
    ensures |UserRoles| == 4
    ensures (set r | r in UserRoles) == {"admin", "facilitador", "participante", "coordenador"}
    ensures forall i, j :: 0 <= i < j < |UserRoles| ==> UserRoles[i] != UserRoles[j]
  {
  }

  /** The decoded token payload. */
  datatype User = User(id: int, email: string, perfil: string)

  /** `s.split(' ')`. */
  function SplitSpace(s: string): (fields: seq<string>)
    ensures |fields| >= 1
    ensures forall i :: 0 <= i < |fields| ==> ' ' !in fields[i]
  {
    if s == [] then [""]
    else
      var rest := SplitSpace(s[1..]);
      if s[0] == ' ' then [""] + rest
      else
        assert forall i :: 1 <= i < |rest| ==> ([[s[0]] + rest[0]] + rest[1..])[i] == rest[i];
        [[s[0]] + rest[0]] + rest[1..]
  }

  /** Joining the fields with ' ' gives the header back: splitting loses nothing. */
  lemma {:induction false} SplitSpaceJoin(s: string)
    ensures Join(SplitSpace(s), " ") == s
  {
    if s != [] {
      var rest := SplitSpace(s[1..]);
      SplitSpaceJoin(s[1..]);
      assert s == [s[0]] + s[1..];
      if s[0] == ' ' {
        JoinCons("", rest, " ");
      } else {
        JoinGlued(s[0], rest);
      }
    }
  }

  /** Gluing a character onto the first field glues it onto the joined text. */
  lemma {:induction false} JoinGlued(c: char, fields: seq<string>)
    requires fields != []
    ensures Join([[c] + fields[0]] + fields[1..], " ") == [c] + Join(fields, " ")
  {
    var h, t := fields[0], fields[1..];
    assert [h] + t == fields;
    JoinCons([c] + h, t, " ");
    JoinCons(h, t, " ");
    if t != [] {
      var j := Join(t, " ");
      assert [c] + h + " " + j == [c] + (h + " " + j);
    }
  }

  /** Joining a list whose head is `h`: the head, then the separator and the rest. */
  lemma {:induction false} JoinCons(h: string, t: seq<string>, sep: string)
    ensures Join([h] + t, sep) == if t == [] then h else h + sep + Join(t, sep)
    decreases |t|
  {
    if |t| > 1 {
      var init := t[..|t| - 1];
      assert ([h] + t)[..|t|] == [h] + init;
      JoinCons(h, init, sep);
    } else if |t| == 1 {
      assert ([h] + t)[..1] == [h];
    }
  }

  /** `authHeader && authHeader.split(' ')[1]`: an absent header gives `undefined`, an
      empty header gives the empty string itself, otherwise the second field or
      `undefined` when there is none. */
  function Token(header: Option<string>): (t: Field<string>)
    ensures !t.Null?
    ensures header.None? ==> t.Undefined?
    ensures header == Some("") ==> t == Value("")
    ensures t.Value? && header != Some("") ==> ' ' !in t.v
  {
    match header
    case None => Undefined
    case Some(h) =>
      if h == "" then Value("")
      else
        var fields := SplitSpace(h);
        if |fields| >= 2 then Value(fields[1]) else Undefined
  }

  /** The token is the text between the first and the second space. */
  lemma {:induction false} TokenIsSecondField(scheme: string, token: string, rest: string)
    requires ' ' !in scheme && ' ' !in token
    requires rest == [] || rest[0] == ' '
    ensures Token(Some(scheme + " " + token + rest)) == Value(token)
  {
    var h := scheme + " " + token + rest;
    assert h == scheme + " " + (token + rest);
    assert h != [] by { assert |h| >= 1; }
    SplitOfPrefix(scheme, token + rest);
    SplitOfPrefix(token, rest);
    if rest != [] {
      assert (token + rest)[..|token|] == token;
      SplitOfPrefix(token, rest[1..]);
      assert token + rest == token + " " + rest[1..];
    } else {
      assert token + rest == token;
    }
    assert SplitSpace(h)[1] == token;
  }

  /** Splitting `w + " " + r` for a space-free `w` yields `w` and then the fields of `r`;
      splitting a space-free `w` alone yields just `w`. */
  lemma {:induction false} SplitOfPrefix(w: string, r: string)
    requires ' ' !in w
    ensures SplitSpace(w + " " + r) == [w] + SplitSpace(r)
    ensures SplitSpace(w) == [w]
    ensures r != [] && r[0] == ' ' ==> SplitSpace(w + r) == [w] + SplitSpace(r[1..])
  {
    SplitBeforeSpace(w, r);
    SplitOfWord(w);
    if r != [] && r[0] == ' ' {
      SplitBeforeSpace(w, r[1..]);
      assert w + r == w + " " + r[1..];
    }
  }

  lemma {:induction false} SplitBeforeSpace(w: string, r: string)
    requires ' ' !in w
    ensures SplitSpace(w + " " + r) == [w] + SplitSpace(r)
  {
    if w == [] {
      assert w + " " + r == " " + r;
      assert (" " + r)[1..] == r;
    } else {
      assert w[0] in w;
      assert forall c :: c in w[1..] ==> c in w;
      SplitBeforeSpace(w[1..], r);
      assert (w + " " + r)[1..] == w[1..] + " " + r;
      assert w == [w[0]] + w[1..];
    }
  }

  lemma {:induction false} SplitOfWord(w: string)
    requires ' ' !in w
    ensures SplitSpace(w) == [w]
  {
    if w != [] {
      assert w[0] in w;
      assert forall c :: c in w[1..] ==> c in w;
      SplitOfWord(w[1..]);
      assert w == [w[0]] + w[1..];
    }
  }

  /** `authenticateToken`, with `jwt.verify` given as `verify` (None when it fails):
      401 without a token, 403 when verification fails, otherwise the decoded user is
      stored on the request and the next handler runs. */
  function AuthenticateToken(header: Option<string>, verify: string -> Option<User>): (r: Outcome<User>)
    ensures r.Fail? ==> r.status in {Unauthorized, Forbidden}
    ensures r.Fail? && r.status == Unauthorized <==> Token(header).Undefined?
    ensures r.Ok? <==> Token(header).Value? && verify(Token(header).v).Some?
    ensures r.Ok? ==> r.value == verify(Token(header).v).value
  {
    match Token(header)
    case Value(t) =>
      (match verify(t)
       case Some(u) => Ok(u)
       case None => Fail(Forbidden, "Token inválido ou expirado"))
    case _ => Fail(Unauthorized, "Token de acesso não fornecido")
  }

  /** `requireRole(allowedRoles)`. */
  function RequireRole(allowed: seq<string>, user: Option<User>): (r: Outcome<()>)
    ensures r.Ok? <==> user.Some? && user.value.perfil in allowed
    ensures r.Fail? ==> r.status == (if user.None? then Unauthorized else Forbidden)
  {
    if user.None? then Fail(Unauthorized, "Usuário não autenticado")
    else if user.value.perfil !in allowed then Fail(Forbidden, "Acesso não autorizado para o seu perfil")
    else Ok(())
  }

  /** `req.params.userId || req.params.id`. */
  function ResourceUserId(userId: Option<string>, id: Option<string>): (r: Option<string>)
    ensures TruthyText(userId) ==> r == userId
    ensures !TruthyText(userId) ==> r == id
  {
    if TruthyText(userId) then userId else id
  }

  /** `requireOwnershipOrRole(allowedRoles)`: the owner is recognised by comparing the
      route parameter with the user's id as text. */
  function RequireOwnershipOrRole(allowed: seq<string>, user: Option<User>,
                                  userId: Option<string>, id: Option<string>): (r: Outcome<()>)
    ensures user.None? ==> r == Fail(Unauthorized, "Usuário não autenticado")
    ensures user.Some? ==>
      (r.Ok? <==> ResourceUserId(userId, id) == Some(IntToDecimal(user.value.id)) || user.value.perfil in allowed)
    ensures r.Fail? ==> r.status in {Unauthorized, Forbidden}
  {
    if user.None? then Fail(Unauthorized, "Usuário não autenticado")
    else
      var resource := ResourceUserId(userId, id);
      var isOwner := TruthyText(resource) && resource.value == IntToDecimal(user.value.id);
      if !isOwner && user.value.perfil !in allowed then
        Fail(Forbidden, "Acesso não autorizado - você não é o proprietário nem tem permissão suficiente")
      else Ok(())
  }

  /** `optionalAuth`: never rejects; the user it attaches to the request, if any. */
  function OptionalAuth(header: Option<string>, verify: string -> Option<User>): (user: Option<User>)
    ensures user.Some? <==> Token(header).Value? && Token(header).v != "" && verify(Token(header).v).Some?
    ensures user.Some? ==> AuthenticateToken(header, verify) == Ok(user.value)
  {
    match Token(header)
    case Value(t) => if t != "" then verify(t) else None
    case _ => None
  }

  /** With an empty header the two middlewares part ways: `authenticateToken` passes the
      empty token to the verifier (403 when it refuses it, not 401), while
      `optionalAuth` does not try it. */
  lemma EmptyHeaderIsNotMissing(verify: string -> Option<User>)
    requires verify("").None?
    ensures AuthenticateToken(Some(""), verify) == Fail(Forbidden, "Token inválido ou expirado")
    ensures AuthenticateToken(Some("Bearer"), verify) == Fail(Unauthorized, "Token de acesso não fornecido")
    ensures OptionalAuth(Some(""), verify).None?
  {
    assert SplitSpace("Bearer") == ["Bearer"] by { SplitOfPrefix("Bearer", ""); }
  }
}
