/**
 * The handler of POST /api/auth/login: check that email and password are present, look the
 * user up by email, compare the password with the stored hash, and sign a token over
 * `{ id, email }` that expires after 24 hours.
 *
 * The two credential failures (no such user, wrong password) both answer 401, but with
 * messages that differ by one accent. `LoginWith` is the handler over any pair of failure
 * messages; `Login` is it with the two messages of the source, `LoginCorrected` with one
 * message for both.
 */
module Login {
  import opened JsValues
  import opened Interfaces

  const MISSING_FIELDS := "Faltan campos obligatorios: email y password."
  const UNKNOWN_EMAIL := "Credenciales inválidas."
  const WRONG_PASSWORD := "Credenciales invalidas."
  const LOGGED_IN := "Inicio de sesión exitoso"
  const INTERNAL_ERROR := "Error interno del servidor."

  /** The `expiresIn` option given to the signer. */
  const TOKEN_LIFETIME := "24h"

  /** The destructured request body `{ email, password }`. */
  datatype LoginRequest = LoginRequest(email: JsValue, password: JsValue)

  /** The bodies' texts for an unknown email and for a wrong password. */
  datatype CredentialMessages = CredentialMessages(unknownEmail: string, wrongPassword: string)

  const AS_WRITTEN := CredentialMessages(UNKNOWN_EMAIL, WRONG_PASSWORD)
  const UNIFORM := CredentialMessages(UNKNOWN_EMAIL, UNKNOWN_EMAIL)

  predicate FieldsPresent(req: LoginRequest)
  {
    Truthy(req.email) && Truthy(req.password)
  }

  /** The claims signed into the token: taken from the stored row, not from the request. */
  function ClaimsOf(user: Row): Claims
  {
    Claims(Column(user, "id_usuario"), Column(user, "email"))
  }

  /** The first row the lookup by email returned, if it returned one. */
  function StoredUser(req: LoginRequest, svc: Services): Option<Row>
  {
    match svc.query(SelectUserByEmail, [req.email])
    case Rows(rows) => if rows == [] then None else Some(rows[0])
    case QueryThrew(_) => None
  }

  /** The outcome of comparing the submitted password with the stored user's hash. */
  function CompareStored(req: LoginRequest, svc: Services): CompareOutcome
    requires StoredUser(req, svc).Some?
  {
    svc.compare(req.password, Column(StoredUser(req, svc).value, "password_hash"))
  }

  function LoginWith(msgs: CredentialMessages, req: LoginRequest, env: Env, svc: Services): (h: Handled)
    // validation comes before any lookup
    ensures h.response.status == 400 <==> !FieldsPresent(req)
    ensures !FieldsPresent(req) ==> h.calls == [] && h.response.body == ErrorBody(MISSING_FIELDS)
    // the first call is the lookup by the submitted email
    ensures FieldsPresent(req) ==>
      1 <= |h.calls| <= 3 && h.calls[0] == QueryCall(SelectUserByEmail, [req.email])
    // the lookup threw or found nothing: it is the only call
    ensures FieldsPresent(req) && StoredUser(req, svc).None? ==>
      h.calls == [QueryCall(SelectUserByEmail, [req.email])]
    // compare threw or did not match: lookup and compare are the only calls
    ensures FieldsPresent(req) && StoredUser(req, svc).Some? && !CompareStored(req, svc).Compared? ==>
      h.calls == [QueryCall(SelectUserByEmail, [req.email]),
                  CompareCall(req.password, Column(StoredUser(req, svc).value, "password_hash"))]
    ensures FieldsPresent(req) && StoredUser(req, svc).Some? && CompareStored(req, svc) == Compared(false) ==>
      h.calls == [QueryCall(SelectUserByEmail, [req.email]),
                  CompareCall(req.password, Column(StoredUser(req, svc).value, "password_hash"))]
    // compare matched: the signer is called once more, whether or not it throws
    ensures FieldsPresent(req) && StoredUser(req, svc).Some? && CompareStored(req, svc) == Compared(true) ==>
      var user := StoredUser(req, svc).value;
      h.calls == [QueryCall(SelectUserByEmail, [req.email]),
                  CompareCall(req.password, Column(user, "password_hash")),
                  SignCall(Claims(Column(user, "id_usuario"), Column(user, "email")), env.jwtSecret, TOKEN_LIFETIME)]
    ensures h.response.status in {200, 400, 401, 500}
    // no such user: 401, and the password is never compared
    ensures FieldsPresent(req) && svc.query(SelectUserByEmail, [req.email]) == Rows([]) ==>
      h.response == Response(401, ErrorBody(msgs.unknownEmail)) && |h.calls| == 1
    // a user was found: the password is compared with the stored hash of the first row
    ensures FieldsPresent(req) && StoredUser(req, svc).Some? ==>
      |h.calls| >= 2 && h.calls[1] == CompareCall(req.password, Column(StoredUser(req, svc).value, "password_hash"))
    // wrong password: 401, and the signer is never called
    ensures FieldsPresent(req) && StoredUser(req, svc).Some? && CompareStored(req, svc) == Compared(false) ==>
      h.response == Response(401, ErrorBody(msgs.wrongPassword)) && |h.calls| == 2
    // these two are the only ways to a 401, and no 401 issues a token
    ensures h.response.status == 401 <==>
      FieldsPresent(req)
      && (svc.query(SelectUserByEmail, [req.email]) == Rows([])
          || (StoredUser(req, svc).Some? && CompareStored(req, svc) == Compared(false)))
    ensures h.response.status == 401 ==> NoSignCall(h.calls)
    ensures h.response.status != 200 ==> h.response.body.ErrorBody?
    // success: a token signed over the stored id and email, valid for 24 hours
    ensures h.response.status == 200 <==>
      FieldsPresent(req) && StoredUser(req, svc).Some? && CompareStored(req, svc) == Compared(true)
      && var user := StoredUser(req, svc).value;
         svc.sign(Claims(Column(user, "id_usuario"), Column(user, "email")), env.jwtSecret, TOKEN_LIFETIME).Signed?
    ensures h.response.status == 200 ==>
      var user := StoredUser(req, svc).value;
      var claims := Claims(Column(user, "id_usuario"), Column(user, "email"));
      var token := svc.sign(claims, env.jwtSecret, TOKEN_LIFETIME).token;
      && h.calls == [QueryCall(SelectUserByEmail, [req.email]),
                     CompareCall(req.password, Column(user, "password_hash")),
                     SignCall(claims, env.jwtSecret, TOKEN_LIFETIME)]
      && h.response.body == LoggedIn(LOGGED_IN, token, Column(user, "id_usuario"))
    // every throw from lookup, compare or sign is an internal error, and nothing else is
    ensures h.response.status == 500 <==>
      FieldsPresent(req)
      && (svc.query(SelectUserByEmail, [req.email]).QueryThrew?
          || (StoredUser(req, svc).Some? && CompareStored(req, svc).CompareThrew?)
          || (StoredUser(req, svc).Some? && CompareStored(req, svc) == Compared(true)
              && var user := StoredUser(req, svc).value;
                 svc.sign(Claims(Column(user, "id_usuario"), Column(user, "email")), env.jwtSecret, TOKEN_LIFETIME).SignThrew?))
    ensures h.response.status == 500 ==> h.response.body == ErrorBody(INTERNAL_ERROR)
  {
    if !FieldsPresent(req) then
      Handled(Response(400, ErrorBody(MISSING_FIELDS)), [])
    else
      var lookup := QueryCall(SelectUserByEmail, [req.email]);
      var internal := Response(500, ErrorBody(INTERNAL_ERROR));
      match svc.query(SelectUserByEmail, [req.email])
      case QueryThrew(_) => Handled(internal, [lookup])
      case Rows(rows) =>
        if rows == [] then
          Handled(Response(401, ErrorBody(msgs.unknownEmail)), [lookup])
        else
          var user := rows[0];
          var compare := CompareCall(req.password, Column(user, "password_hash"));
          match svc.compare(req.password, Column(user, "password_hash"))
          case CompareThrew(_) => Handled(internal, [lookup, compare])
          case Compared(matched) =>
            if !matched then
              Handled(Response(401, ErrorBody(msgs.wrongPassword)), [lookup, compare])
            else
              var claims := ClaimsOf(user);
              var calls := [lookup, compare, SignCall(claims, env.jwtSecret, TOKEN_LIFETIME)];
              match svc.sign(claims, env.jwtSecret, TOKEN_LIFETIME)
              case SignThrew(_) => Handled(internal, calls)
              case Signed(token) =>
                Handled(Response(200, LoggedIn(LOGGED_IN, token, Column(user, "id_usuario"))), calls)
  }

  /** The handler as written: each credential failure carries its own message. */
  function Login(req: LoginRequest, env: Env, svc: Services): (h: Handled)
    ensures h.response.status == 401 ==>
      h.response.body == ErrorBody(UNKNOWN_EMAIL) || h.response.body == ErrorBody(WRONG_PASSWORD)
  {
    LoginWith(AS_WRITTEN, req, env, svc)
  }

  /** The handler with one message for both credential failures: every 401 is the same
      response, so it cannot tell an unknown email from a wrong password. */
  function LoginCorrected(req: LoginRequest, env: Env, svc: Services): (h: Handled)
    ensures h.response.status == 401 ==> h.response == Response(401, ErrorBody(UNKNOWN_EMAIL))
    ensures h.response.status != 401 ==> h == Login(req, env, svc)
  {
    LoginWith(UNIFORM, req, env, svc)
  }

  /** Whatever the messages, an unknown email and a wrong password give the same status and
      neither issues a token. */
  lemma CredentialFailuresShareStatus(msgs: CredentialMessages, req: LoginRequest, env: Env,
                                       unknown: Services, mismatch: Services)
    requires FieldsPresent(req)
    requires unknown.query(SelectUserByEmail, [req.email]) == Rows([])
    requires StoredUser(req, mismatch).Some? && CompareStored(req, mismatch) == Compared(false)
    ensures LoginWith(msgs, req, env, unknown).response.status == 401
    ensures LoginWith(msgs, req, env, mismatch).response.status == 401
    ensures NoSignCall(LoginWith(msgs, req, env, unknown).calls)
    ensures NoSignCall(LoginWith(msgs, req, env, mismatch).calls)
  {
  }

  /** The plaintext password reaches only the compare: two requests that differ in the
      password alone, whose compares with the stored hash agree, make the same lookup and
      the same sign call and get the same response. */
  lemma PasswordReachesOnlyCompare(msgs: CredentialMessages, req1: LoginRequest, req2: LoginRequest,
                                   env: Env, svc: Services)
    requires req1.email == req2.email
    requires FieldsPresent(req1) && Truthy(req2.password)
    requires StoredUser(req1, svc).Some? ==> CompareStored(req1, svc) == CompareStored(req2, svc)
    ensures var h1 := LoginWith(msgs, req1, env, svc); var h2 := LoginWith(msgs, req2, env, svc);
      && h1.response == h2.response
      && |h1.calls| == |h2.calls|
      && forall i :: 0 <= i < |h1.calls| && i != 1 ==> h1.calls[i] == h2.calls[i]
  {
  }

  /** The token never carries the stored hash: changing the row's `password_hash` leaves the
      claims as they were. */
  lemma ClaimsOmitPasswordHash(user: Row, digest: JsValue)
    ensures ClaimsOf(user["password_hash" := digest]) == ClaimsOf(user)
  {
  }

  /** The login never depends on the stored hash beyond its compare: two stores whose first
      rows differ only in `password_hash`, and whose compares agree, make the same sign call
      and send the same response. */
  lemma StoredHashReachesOnlyCompare(msgs: CredentialMessages, req: LoginRequest, env: Env,
                                     svc1: Services, svc2: Services, digest: JsValue)
    requires FieldsPresent(req)
    requires StoredUser(req, svc1).Some? && StoredUser(req, svc2).Some?
    requires StoredUser(req, svc2).value == StoredUser(req, svc1).value["password_hash" := digest]
    requires CompareStored(req, svc1) == CompareStored(req, svc2)
    requires svc1.sign == svc2.sign
    ensures var h1 := LoginWith(msgs, req, env, svc1); var h2 := LoginWith(msgs, req, env, svc2);
      && h1.response == h2.response
      && |h1.calls| == |h2.calls|
      && forall i :: 0 <= i < |h1.calls| && i != 1 ==> h1.calls[i] == h2.calls[i]
  {
    ClaimsOmitPasswordHash(StoredUser(req, svc1).value, digest);
  }

  /** As written, the two 401 bodies differ: for every request, a store without the user and
      a store whose user's hash does not match answer 401 with different responses. */
  lemma AsWrittenFailuresDiffer(req: LoginRequest, env: Env, unknown: Services, mismatch: Services)
    requires FieldsPresent(req)
    requires unknown.query(SelectUserByEmail, [req.email]) == Rows([])
    requires StoredUser(req, mismatch).Some? && CompareStored(req, mismatch) == Compared(false)
    ensures Login(req, env, unknown).response.status == 401
    ensures Login(req, env, mismatch).response.status == 401
    ensures Login(req, env, unknown).response != Login(req, env, mismatch).response
  {
  }

  /** One such pair: the same login answered by a store without the user and by one holding
      a user whose hash does not match. */
  lemma AsWrittenFailuresDifferExample()
    ensures var req := LoginRequest(Str("ana@example.com"), Str("secret"));
      var env := Env(None, Some("key"));
      var unknown := Services((p, r) => HashThrew(TYPE_ERROR), (st, ps) => Rows([]),
                              (p, d) => Compared(false), (c, k, t) => Signed("t"));
      var mismatch := Services((p, r) => HashThrew(TYPE_ERROR), (st, ps) => Rows([map["password_hash" := Str("x")]]),
                               (p, d) => Compared(false), (c, k, t) => Signed("t"));
      && Login(req, env, unknown).response.status == Login(req, env, mismatch).response.status
      && Login(req, env, unknown).response != Login(req, env, mismatch).response
  {
  }
}
