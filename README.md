# Account store of the Death-Events web server

This project models the stateful core of `server.js`: the username/password account store
behind the `signup` and `login` socket events. The store is the parsed `users.json`, a map
from username to `{ password: <bcrypt hash> }`. It is loaded before every operation and
rewritten whole after a successful signup. Each handler answers with exactly one event:
`signupError`, `signupSuccess` or `loginRes`.

Modules:

- `Wrappers` (wrappers.dfy): `Option`.
- `Bcrypt` (bcrypt.dfy): what the store uses of bcrypt. `HashSync` builds the hash form
  `$2b$10$<salt><digest>`. `CompareSync` reads the setting back out of a stored
  hash, re-hashes the candidate and compares the strings. The Eksblowfish key schedule is a
  function-valued parameter `kdf`, and the random salt is a parameter. So "a hash verifies
  against the password it was made from" is proved here for every key schedule, not assumed.
- `Accounts` (accounts.dfy): the `signup` and `login` handlers as functions of the loaded map.
  Also the lemmas that relate them.
- `Gateway` (gateway.dfy): the `Server` class. Its field `usersFile` is the file on disk,
  with `None` while the file does not exist. `LoadUsers`, `SaveUsers`, `Signup` and `Login`
  are methods of that class. `Login` has no `modifies` clause, so it cannot write. The module
  also holds the dispatch of inbound events (`Dispatch`, `Handle`, `Serve`) and a scenario.

Two facts about the code that the model keeps:

- The stored record's field is `password` (server.js:41).
- Signup accepts empty usernames and passwords (server.js:32); no `requires` excludes them.

## Model

| member | source | states |
|---|---|---|
| `Bcrypt.HashSync` | server.js:40 | The hash of a password parses back as revision `2b`, work factor 10 and the drawn salt. What follows the 29-character setting is the key schedule's digest of that password. |
| `Bcrypt.ParseText` | server.js:40 | Writing a setting and reading it back out of a hash gives the same revision, cost and salt, whatever digest follows. |
| `Bcrypt.TextOfParsed` | server.js:56 | A stored value that parses as a bcrypt hash begins with the text of its own setting. |
| `Bcrypt.CompareSyncDigest` | server.js:56 | For a well-formed stored hash, `compareSync` succeeds if and only if the candidate's digest under the stored cost and salt equals the stored digest. |
| `Bcrypt.CompareSync` | server.js:56 | No contract of its own: it parses the stored setting, hashes the candidate again under it and compares the two strings; a stored value that does not parse matches nothing. `CompareSyncDigest` and `HashSyncVerifies` state its properties. |
| `Bcrypt.HashSyncVerifies` | server.js:56 | `compareSync(p, hashSync(p, 10))` holds for every password and salt. |
| `Bcrypt.HashSyncRejects` | server.js:56 | A password whose digest under the same salt differs is rejected by the hash of another password. |
| `Bcrypt.HashSyncNotPlaintext` | server.js:40 | The hash differs from the plaintext unless the plaintext is itself a bcrypt hash with the same setting. |
| `Accounts.Signup` | server.js:31-45 | A taken name gives `signupError` "Username already exists" and the same map. A fresh name gives `signupSuccess` "User registered successfully". The keys then grow by exactly that name, every other record is unchanged, and the new record is a `$2b$10$` hash that verifies against the password. |
| `Accounts.Login` | server.js:47-61 | Always a `loginRes`. `success` holds if and only if the name is present and `compareSync` accepts the stored hash. The message is "User not found" for an absent name, and "Login successful" or "Incorrect password" for a present one. |
| `Accounts.SignupThenLogin` | server.js:40-57 | A fresh signup followed by a login with the same credentials gives `success: true`, "Login successful". |
| `Accounts.SignupThenWrongLogin` | server.js:56-59 | After a fresh signup, a login with a password whose digest differs gives `success: false`, "Incorrect password". |
| `Accounts.DuplicateSignupKeepsHash` | server.js:35-38 | A second signup under the same name, with any password, is refused and does not change the map. The first password still logs in. |
| `Accounts.SignupKeepsHashed` | server.js:40-42 | If every stored password is a bcrypt hash before a signup, the same holds after it. |
| `Accounts.StoredIsNotPlaintext` | server.js:41 | In such a store, a submitted password that is not hash-shaped is never the stored value. |
| `Gateway.Server.LoadUsers` | server.js:19-22 | A missing file loads as the empty map. An existing file loads as its contents. |
| `Gateway.Server.SaveUsers` | server.js:25-27 | The file afterwards holds exactly the saved map. |
| `Gateway.Server.SaveThenLoad` | server.js:19-27 | Saving and then loading gives back the saved map. |
| `Gateway.Server.Signup` | server.js:31-45 | The new stored map and the event are those of `Accounts.Signup` on the loaded map. On `signupError` the file is untouched. On `signupSuccess` the file holds the new map. |
| `Gateway.Server.Login` | server.js:47-61 | Changes nothing. The event is that of `Accounts.Login` on the loaded map, and `success` holds if and only if the name is stored and its hash accepts the password. |
| `Gateway.Server.Dispatch` | server.js:30-61 | One inbound event changes the store and answers as `Handle` says. Only a successful signup writes the file; otherwise it is as it was. |
| `Gateway.Handle` | server.js:31-61 | Each event gets a reply of its own kind. A login leaves the map unchanged. |
| `Gateway.Serve` | server.js:30-61 | The events of one connection handled in order, each on the map the previous one left, collecting one reply per event. `ServeFacts` states its properties. |
| `Gateway.ServeFacts` | server.js:30-61 | Over any sequence of events there is exactly one reply per event, of the right kind. No account is ever removed or overwritten, and a store of hashes stays a store of hashes. |
| `Gateway.AliceScenario` | server.js:31-61 | Starting with no file: signup alice/secret1, signup alice again, login with secret1, then login with "wrong". The replies are success, "Username already exists", `success: true` and "Incorrect password". This holds when the two passwords' digests differ. |

## Left out

- The server-status probe (server.js:63-79) is a network call into `minecraft-server-util` that only copies fields.
- Express static files, page routes and server startup (server.js:83-95) are I/O plumbing with no logic.
- Socket.io transport and connection wiring (server.js:11, 30): the handlers are methods that return the event they emit.
- bcrypt internals: the Eksblowfish key schedule and the 72-byte password limit. They are foreign code and live in the `kdf` parameter. Salt generation is a parameter, so `genSalt` randomness is not modelled.
- Stored values that `hashSync` did not write are only approximated by `CompareSync`. It accepts revisions `2a` and `2b` but not the bare `$2$`. It compares the stored salt text rather than the re-encoded 16-byte salt, so a non-canonical last salt character is not rejected. It puts no length on the digest, so a 29-character setting alone can match a key schedule that returns the empty string. Every value written by signup is a full `$2b$10$` hash, so none of this affects a store that only signup wrote.
- Bcrypt.HashSyncRejects: assumes the key schedule gives different digests to the two passwords, because collision resistance of Eksblowfish cannot be stated of a parameter.
- Gateway.AliceScenario: requires the same digest-difference hypothesis for "wrong" and "secret1".
- JSON serialisation of `users.json` (server.js:21, 26), including its 2-space indentation and disk read/write failures. Saving and loading are a faithful round trip of the map.
- The unused `express-session` import (server.js:4).
- JavaScript plain-object lookups. `users[username]` is a truthiness test (server.js:35, 51), so inherited names such as `__proto__`, `constructor` or `toString` read as present. Signup then refuses them. Login then calls `compareSync` on an undefined hash, which throws, so no reply is emitted. The model uses key presence in a `map` and does not capture this.
- Payloads are taken to be strings; the handlers do no validation (server.js:32, 48). A record without a `password` field, which only a hand-edited file could hold, is not represented.
- Concurrency: overlapping signups racing on the file (last writer wins) are not modelled. Handlers run one after another.
