# bibliAPI authentication handlers in Dafny

This project models the two request handlers of the bibliAPI authentication service.

- **Register** (`POST /api/auth/register`) checks that `username`, `email` and `password` are truthy. It parses `SALT_ROUNDS`, hashes the password with bcrypt, inserts the row into `"Registro_usuario"` and answers 201, 400, 409 or 500.
- **Login** (`POST /api/auth/login`) checks that `email` and `password` are truthy. It looks the user up by email, compares the password with the stored hash, signs a JWT over `{ id, email }` that expires after `'24h'`, and answers 200, 400, 401 or 500.

Each handler is a total function. Its inputs are the destructured request body (JavaScript values with JavaScript truthiness), the environment (`SALT_ROUNDS`, `JWT_SECRET`) and a `Services` value. That value holds the four collaborators as uninterpreted functions:

- `bcrypt.hash`
- `db.query`
- `bcrypt.compare`
- `jwt.sign`

A collaborator either returns a value or throws an error, seen through its `code` property (`undefined` when it has none).

Each handler returns the one response it sends, together with the list of collaborator calls it made and their arguments. That list is what lets the contracts say things like:

- validation comes before any call;
- the store receives the digest, never the plaintext;
- no 401 ever reaches the signer.

Files:

- `js_values.dfy`: JavaScript values, truthiness, caught errors, rows.
- `parse_int.dfy`: `parseInt(s, 10)` as ECMA-262 section 19.2.5 defines it. Its partner is `Decimal`, the decimal text of a natural number, and a round-trip lemma connects the two.
- `interfaces.dfy`: the collaborators, the call record, the environment and the responses.
- `register.dfy`: the register handler, the salt-round selection and the `catch` mapping.
- `login.dfy`: the login handler. It is written once over the two credential-failure messages, as `LoginWith`. `Login` instantiates it with the source's two messages and `LoginCorrected` with a single one (see Findings).

Details of the code that the model keeps:

- Both success bodies carry the id as `id_usuario`.
- A salt-round value below 10 is not raised to 10. It draws a warning whose text (index.js:38) claims that 10 is used, but it is passed to the hash unchanged.
- A hash error whose `code` is `'23505'` would also answer 409, because the `catch` block covers both the hash and the insert.

## Model

| member | source | states |
|---|---|---|
| `JsValues.Truthy` | index.js:28 | A field fails the `!x` test exactly when it is `undefined`, `null`, `false`, `0` or `""`. Every other string, number, array and object passes. |
| `ParseInt.ParseIntDecimal` | index.js:35 | `parseInt(s, 10)` gives NaN exactly when the first character after leading white space is neither a digit nor a sign followed by a digit. It is negative only after a leading minus sign. |
| `ParseInt.ParseDecimal` | index.js:35 | `parseInt` with radix 10 gives back `n` from the decimal text of `n`. Leading white space before it is skipped, and any text after it that does not start with a digit is ignored. |
| `ParseInt.ParseNegativeDecimal` | index.js:35 | The same with a leading minus sign: the result is `-n`. |
| `ParseInt.NoDigitIsNaN` | index.js:35 | A text that contains no decimal digit parses to NaN. |
| `Register.SaltRounds` | index.js:35 | An unset or empty `SALT_ROUNDS` gives 10 salt rounds. |
| `Register.ConfiguredRoundsPassedUnchanged` | index.js:35-41 | A configured decimal `n` reaches `bcrypt.hash` as exactly `n`, even below 10. The warning fires exactly when `n < 10`. |
| `Register.UnparsableRoundsPassedUnchanged` | index.js:35-41 | A `SALT_ROUNDS` without digits yields NaN. NaN draws the warning and is still what `bcrypt.hash` receives. |
| `Register.CatchResponse` | index.js:62-71 | A caught error answers 409 if and only if its `code` is `'23505'`, and 500 otherwise. No other status comes out of the `catch`. The 409 body is the fixed text `El nombre de usuario o el email ya estan en uso.` and the 500 body the fixed text `Error interno del servidor durante el registro.`, so nothing of the error reaches the client. |
| `Register.Register` | index.js:25-72 | Missing fields answer 400 if and only if validation fails, and then no collaborator is called. The first call is the hash, with the password and the parsed rounds. The insert is made if and only if the hash succeeded, with exactly `[username, email, digest]`. There is a 201 if and only if the insert returned a row, and its body holds that row's `id_usuario` and `username`. A 409 comes exactly from a `'23505'` code thrown by the hash or by the insert. A 500 comes exactly from any other throw by either, or from an empty insert result (reading `id_usuario` of `undefined` throws a TypeError without a `code`). Only 201, 400, 409 and 500 can occur, and every non-201 body is an error body. The 409 and 500 bodies are the fixed texts of the `catch` block, which never carry the error's code or message. |
| `Register.PasswordReachesOnlyHash` | index.js:41-60 | Two requests that differ only in a password that hashes alike make the same store call and get the same response. The plaintext reaches only the hash. |
| `Register.ResponseHidesDigest` | index.js:50-60 | Runs with different digests, whose inserts get the same reply, send the same response. The digest is never echoed. |
| `Login.LoginWith` | index.js:78-122 | Missing fields answer 400 if and only if validation fails, and then nothing is looked up. The first call is the lookup by the submitted email. The call list is fixed on every path: only the lookup when it throws or finds nothing; lookup and compare when compare throws or does not match; and lookup, compare and sign when compare matches, whether or not sign throws. No row gives 401 with no compare call. A found row is compared by its `password_hash`. A mismatch gives 401 with no signing. These two are the only 401s. A 200 comes if and only if compare is true and signing succeeds. The calls are then exactly lookup, compare and `sign({ id: row.id_usuario, email: row.email }, JWT_SECRET, '24h')` over the stored row, and the body holds the token and the stored `id_usuario`. A 500 comes exactly from a throw by lookup, compare or sign. |
| `Login.Login` | index.js:92-102 | As written, a 401 carries one of the two literal messages. |
| `Login.LoginCorrected` | index.js:92-102 | With one message for both failures, every 401 is the same response. Every other response is the one the source's handler sends. |
| `Login.PasswordReachesOnlyCompare` | index.js:88-116 | Two requests that differ only in a password that compares alike with the stored hash make the same lookup and the same sign call and get the same response. The plaintext reaches only `bcrypt.compare`. |
| `Login.ClaimsOmitPasswordHash` | index.js:105-109 | Changing the stored row's `password_hash` does not change the signed claims. |
| `Login.StoredHashReachesOnlyCompare` | index.js:98-116 | Two stores whose first rows differ only in `password_hash`, and whose compares with the submitted password agree, give the same lookup, the same sign call and the same response. The stored hash reaches only `bcrypt.compare`. |
| `Login.CredentialFailuresShareStatus` | index.js:89-102 | Whatever the messages, an unknown email and a wrong password both answer 401, and neither calls the signer. |
| `Login.AsWrittenFailuresDiffer` | index.js:94-101 | As written, for every valid request, a store without the user and a store whose user's hash does not match both answer 401, with different responses. |
| `Login.AsWrittenFailuresDifferExample` | index.js:94-101 | One concrete request and pair of stores for which the two 401 responses differ. |

## Findings

| source | as written | input that shows it | evidently intended | confidence | as-written member | corrected member |
|---|---|---|---|---|---|---|
| index.js:94-101 | The unknown-email 401 says `Credenciales inválidas.` (with an accent). The wrong-password 401 says `Credenciales invalidas.` (without one). | The login `{ email: "ana@example.com", password: "secret" }` answered once by a store with no row and once by a store with a row whose hash does not match. | One identical body for both failures. The comment at index.js:93 says the message is generic so that it does not reveal whether the email exists. | high; not executed | `Login.AsWrittenFailuresDiffer` | `Login.LoginCorrected` |

## Left out

- bcrypt: hashing and comparison are uninterpreted. The model does not state that `compare(p, hash(p))` holds, nor that compare is constant-time.
- JWT: the token is whatever `jwt.sign` returns for the recorded claims, secret and `'24h'`. Encoding, signature and expiry checking are not modelled.
- Uniqueness of username and email is enforced by PostgreSQL. The model takes the store's reply, including error code `'23505'`, as an input. The table and its "no duplicate row" behaviour are not modelled.
- The SQL text is represented by the two `Statement` values, not by the query strings.
- A thrown `null` or `undefined` is not modelled: `error.code` would itself throw inside the `catch`. Any other thrown value is one `JsError`, with `code` `undefined` when it has none (a thrown string or number, for one), and answers 500.
- Request fields that are JSON numbers are exact reals (`Num`), not IEEE doubles. The result of `parseInt` is an unbounded integer. The model does not capture the precision loss above 2^53, nor that a `SALT_ROUNDS` whose digits denote a value of about 1.8 × 10^308 or more parses to `Infinity`. It also does not capture the sign of `-0`.
- Timing is not modelled. Even under `Login.LoginCorrected`, an unknown email makes no `bcrypt.compare` call (calls `[lookup]`) while a wrong password makes one (calls `[lookup, compare]`), so the response time can still reveal whether the email exists.
- JSON serialisation of the response body is not modelled: a field whose value is `undefined` would be dropped from the JSON.
- A request without a parsed JSON body is not modelled. Under Express 4 `req.body` is then `{}`, and every field reads as `undefined` (a 400 in the model). Under Express 5 it is `undefined`, and the destructuring at index.js:26 and index.js:79 throws outside the handlers' `try`, so Express's default error handler answers. The source does not fix the Express version.
- Express setup, CORS, `app.listen`, dotenv loading, `console.warn`/`console.error` logging and async scheduling are left out. The warning is modelled only as the condition `Register.SaltRoundsWarning`; what the source promises about it is stated by `Register.ConfiguredRoundsPassedUnchanged` and `Register.UnparsableRoundsPassedUnchanged`.
- db.js is not part of this model: pool construction, `testConnection`, the pool error listener and `ensureString`.
