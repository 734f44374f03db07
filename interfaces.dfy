/**
 * What the two handlers exchange with the outside world: the collaborators they call
 * (bcrypt's `hash` and `compare`, the pool's `query`, jsonwebtoken's `sign`), given as
 * uninterpreted functions from their arguments to their outcome; the record of the calls a
 * handler makes; the process environment it reads; and the response it sends.
 */
module Interfaces {
  import opened JsValues
  import opened ParseInt

  /** The two parameterised SQL statements the handlers send to the store. */
  datatype Statement =
    | InsertUser         // INSERT INTO "Registro_usuario" (username, email, password_hash) ... RETURNING id_usuario, username
    | SelectUserByEmail  // SELECT id_usuario, email, password_hash FROM "Registro_usuario" WHERE email = $1

  datatype HashOutcome = Hashed(digest: string) | HashThrew(error: JsError)

  datatype QueryOutcome = Rows(rows: seq<Row>) | QueryThrew(error: JsError)

  datatype CompareOutcome = Compared(matched: bool) | CompareThrew(error: JsError)

  datatype SignOutcome = Signed(token: string) | SignThrew(error: JsError)

  /** The claims object `{ id, email }` handed to the token signer. */
  datatype Claims = Claims(id: JsValue, email: JsValue)

  /** The external collaborators, as functions from the arguments a handler passes to what
      the call returns or throws. Nothing is assumed about them. */
  datatype Services = Services(
    hash: (JsValue, Parsed) -> HashOutcome,
    query: (Statement, seq<JsValue>) -> QueryOutcome,
    compare: (JsValue, JsValue) -> CompareOutcome,
    sign: (Claims, Option<string>, string) -> SignOutcome)

  /** One call a handler made to a collaborator, with the arguments it passed. */
  datatype Call =
    | HashCall(plain: JsValue, rounds: Parsed)
    | QueryCall(statement: Statement, params: seq<JsValue>)
    | CompareCall(plain: JsValue, digest: JsValue)
    | SignCall(claims: Claims, secret: Option<string>, expiresIn: string)

  /** The environment variables the handlers read (`undefined` is `None`). */
  datatype Env = Env(saltRounds: Option<string>, jwtSecret: Option<string>)

  /** The JSON bodies the handlers send. */
  datatype Body =
    | ErrorBody(error: string)
    | Registered(message: string, idUsuario: JsValue, username: JsValue)
    | LoggedIn(message: string, token: string, idUsuario: JsValue)

  datatype Response = Response(status: int, body: Body)

  /** What handling one request amounts to: the one response sent, and the collaborator
      calls made before it, in order. */
  datatype Handled = Handled(response: Response, calls: seq<Call>)

  /** A run issued no token: the signer was never called. */
  predicate NoSignCall(calls: seq<Call>)
  {
    forall i :: 0 <= i < |calls| ==> !calls[i].SignCall?
  }
}
