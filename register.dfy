/**
 * The handler of POST /api/auth/register: check that username, email and password are all
 * present, hash the password with the configured number of salt rounds, insert the user,
 * and map the outcome to 201, 409 (unique violation) or 500.
 */
module Register {
  import opened JsValues
  import opened ParseInt
  import opened Interfaces

  const MISSING_FIELDS := "Faltan campos obligatorios: username, email y password."
  const REGISTERED := "Usuario registrado exitosamente"
  const ALREADY_IN_USE := "El nombre de usuario o el email ya estan en uso."
  const INTERNAL_ERROR := "Error interno del servidor durante el registro."

  /** PostgreSQL's SQLSTATE for unique_violation. */
  const UNIQUE_VIOLATION := "23505"

  /** The salt rounds used when SALT_ROUNDS is unset, and the fewest that draw no warning. */
  const DEFAULT_SALT_ROUNDS := 10

  /** The destructured request body `{ username, email, password }`. */
  datatype RegisterRequest = RegisterRequest(username: JsValue, email: JsValue, password: JsValue)

  predicate FieldsPresent(req: RegisterRequest)
  {
    Truthy(req.username) && Truthy(req.email) && Truthy(req.password)
  }

  /** `parseInt(process.env.SALT_ROUNDS || '10', 10)`: an unset or empty variable gives the
      default; anything else is parsed as it stands. */
  function SaltRounds(config: Option<string>): (r: Parsed)
    ensures config == None || config == Some("") ==> r == Int(DEFAULT_SALT_ROUNDS)
  {
    if config == None || config == Some("") then
      assert "10" == [] + Decimal(10) + [];
      ParseDecimal(10, [], []);
      ParseIntDecimal("10")
    else
      ParseIntDecimal(config.value)
  }

  /** The condition under which the handler logs a warning about SALT_ROUNDS. It only logs:
      the value passed to the hash is not replaced. */
  predicate SaltRoundsWarning(r: Parsed)
  {
    r.NaN? || r.value < DEFAULT_SALT_ROUNDS
  }

  /** The `catch` block: a unique violation is a conflict, every other error is internal. */
  function CatchResponse(e: JsError): (r: Response)
    ensures r.status == 409 || r.status == 500
    ensures r.status == 409 <==> e.code == Str(UNIQUE_VIOLATION)
    // fixed texts: the error itself, its code and message, never reach the client
    ensures r.status == 409 ==> r.body == ErrorBody(ALREADY_IN_USE)
    ensures r.status == 500 ==> r.body == ErrorBody(INTERNAL_ERROR)
    ensures r.body.ErrorBody?
  {
    if e.code == Str(UNIQUE_VIOLATION) then Response(409, ErrorBody(ALREADY_IN_USE))
    else Response(500, ErrorBody(INTERNAL_ERROR))
  }

  /** The parameters of the INSERT: username, email and the digest, in that order. */
  function InsertParams(req: RegisterRequest, digest: string): seq<JsValue>
  {
    [req.username, req.email, Str(digest)]
  }

  function Register(req: RegisterRequest, env: Env, svc: Services): (h: Handled)
    // validation comes before any collaborator is called
    ensures h.response.status == 400 <==> !FieldsPresent(req)
    ensures !FieldsPresent(req) ==> h.calls == [] && h.response.body == ErrorBody(MISSING_FIELDS)
    // the password is hashed with the configured rounds, as parsed
    ensures FieldsPresent(req) ==>
      1 <= |h.calls| <= 2 && h.calls[0] == HashCall(req.password, SaltRounds(env.saltRounds))
    // the store is called only after a successful hash, and receives the digest
    ensures var hashed := svc.hash(req.password, SaltRounds(env.saltRounds));
      |h.calls| == 2 <==> FieldsPresent(req) && hashed.Hashed?
    ensures var hashed := svc.hash(req.password, SaltRounds(env.saltRounds));
      |h.calls| == 2 ==> h.calls[1] == QueryCall(InsertUser, [req.username, req.email, Str(hashed.digest)])
    // the reachable statuses and what each body holds
    ensures h.response.status in {201, 400, 409, 500}
    ensures h.response.status == 201 <==>
      |h.calls| == 2 && var inserted := svc.query(InsertUser, h.calls[1].params);
      inserted.Rows? && inserted.rows != []
    ensures h.response.status == 201 ==>
      var row := svc.query(InsertUser, h.calls[1].params).rows[0];
      h.response.body == Registered(REGISTERED, Column(row, "id_usuario"), Column(row, "username"))
    // the catch block: a unique violation, from the hash or the insert, is a conflict;
    // every other throw is an internal error
    ensures var hashed := svc.hash(req.password, SaltRounds(env.saltRounds));
      h.response.status == 409 <==>
      FieldsPresent(req)
      && (|| (hashed.HashThrew? && hashed.error.code == Str(UNIQUE_VIOLATION))
          || (hashed.Hashed? && var inserted := svc.query(InsertUser, [req.username, req.email, Str(hashed.digest)]);
              inserted.QueryThrew? && inserted.error.code == Str(UNIQUE_VIOLATION)))
    // an empty insert result makes `newUser.id_usuario` throw a TypeError, which has no code
    ensures var hashed := svc.hash(req.password, SaltRounds(env.saltRounds));
      h.response.status == 500 <==>
      FieldsPresent(req)
      && (|| (hashed.HashThrew? && hashed.error.code != Str(UNIQUE_VIOLATION))
          || (hashed.Hashed? && var inserted := svc.query(InsertUser, [req.username, req.email, Str(hashed.digest)]);
              (inserted.QueryThrew? && inserted.error.code != Str(UNIQUE_VIOLATION)) || inserted == Rows([])))
    ensures h.response.status != 201 ==> h.response.body.ErrorBody?
    ensures h.response.status == 409 ==> h.response.body == ErrorBody(ALREADY_IN_USE)
    ensures h.response.status == 500 ==> h.response.body == ErrorBody(INTERNAL_ERROR)
  {
    if !FieldsPresent(req) then
      Handled(Response(400, ErrorBody(MISSING_FIELDS)), [])
    else
      var rounds := SaltRounds(env.saltRounds);
      var hashCall := HashCall(req.password, rounds);
      match svc.hash(req.password, rounds)
      case HashThrew(e) => Handled(CatchResponse(e), [hashCall])
      case Hashed(digest) =>
        var params := InsertParams(req, digest);
        var calls := [hashCall, QueryCall(InsertUser, params)];
        match svc.query(InsertUser, params)
        case QueryThrew(e) => Handled(CatchResponse(e), calls)
        case Rows(rows) =>
          if rows == [] then Handled(CatchResponse(TYPE_ERROR), calls)
          else
            var newUser := rows[0];
            Handled(Response(201, Registered(REGISTERED, Column(newUser, "id_usuario"), Column(newUser, "username"))), calls)
  }

  /** The plaintext password reaches only the hash: two requests that differ in the password
      alone, whose passwords hash alike, make the same store call and get the same response. */
  lemma PasswordReachesOnlyHash(req1: RegisterRequest, req2: RegisterRequest, env: Env, svc: Services)
    requires req1.username == req2.username && req1.email == req2.email
    requires FieldsPresent(req1) && Truthy(req2.password)
    requires svc.hash(req1.password, SaltRounds(env.saltRounds)) == svc.hash(req2.password, SaltRounds(env.saltRounds))
    ensures Register(req1, env, svc).calls[1..] == Register(req2, env, svc).calls[1..]
    ensures Register(req1, env, svc).response == Register(req2, env, svc).response
  {
  }

  /** The response never carries the digest: runs whose hashes differ, but whose store
      replies to the insert alike, send the same response. */
  lemma ResponseHidesDigest(req: RegisterRequest, env: Env, svc1: Services, svc2: Services)
    requires svc1.hash(req.password, SaltRounds(env.saltRounds)).Hashed?
    requires svc2.hash(req.password, SaltRounds(env.saltRounds)).Hashed?
    requires svc1.query(InsertUser, InsertParams(req, svc1.hash(req.password, SaltRounds(env.saltRounds)).digest))
          == svc2.query(InsertUser, InsertParams(req, svc2.hash(req.password, SaltRounds(env.saltRounds)).digest))
    ensures Register(req, env, svc1).response == Register(req, env, svc2).response
  {
  }

  /** A configured number of rounds is passed to the hash exactly as written, below the
      default of 10 included; a value under 10 only draws the warning. */
  lemma ConfiguredRoundsPassedUnchanged(n: nat, req: RegisterRequest, env: Env, svc: Services)
    requires env.saltRounds == Some(Decimal(n))
    requires FieldsPresent(req)
    ensures Register(req, env, svc).calls[0] == HashCall(req.password, Int(n))
    ensures SaltRoundsWarning(SaltRounds(env.saltRounds)) <==> n < DEFAULT_SALT_ROUNDS
  {
    DecimalRounds(n);
  }

  /** The decimal text of `n` in SALT_ROUNDS selects exactly `n` rounds. */
  lemma DecimalRounds(n: nat)
    ensures SaltRounds(Some(Decimal(n))) == Int(n)
  {
    assert Decimal(n) == [] + Decimal(n) + [];
    ParseDecimal(n, [], []);
  }

  /** A SALT_ROUNDS with no digit at all gives NaN, which draws the warning and is still what
      the hash receives. */
  lemma UnparsableRoundsPassedUnchanged(config: string, req: RegisterRequest, env: Env, svc: Services)
    requires env.saltRounds == Some(config) && config != ""
    requires forall i :: 0 <= i < |config| ==> !IsDigit(config[i])
    requires FieldsPresent(req)
    ensures SaltRoundsWarning(SaltRounds(env.saltRounds))
    ensures Register(req, env, svc).calls[0] == HashCall(req.password, NaN)
  {
  }
}
