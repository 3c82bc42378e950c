# User registry backend: schema validation, live users, handler outcomes

This project models the core of a small user-registry backend written with
Express, Socket.io and Mongoose, and proves properties of that model in Dafny.
The model has two parts:

- **The user schema** (`backend/models/User.js`). These are the required
  fields, the four format patterns (mobile number, email, login id and
  password strength) and the two unique indexes (emailId, loginId), next to
  the collection's built-in unique index on `_id`.
  - Each pattern is written as its regular expression reads: classes,
    quantifiers, lookaheads and a concatenation split. `\s` is the
    ECMAScript set: WhiteSpace, the Unicode space separators (category Zs)
    and LineTerminator.
  - Each pattern is proved equal to a plain statement of the rule it
    enforces.
  - The collection is modelled as a sequence of stored documents.
  - Saving validates first, then enforces the unique indexes. The proofs
    show that no sequence of registrations ever stores two users with the
    same id, the same emailId or the same loginId.
- **The server** (`backend/server.js`).
  - **Live-user list.** The `liveUsers` array is a class with a `seq` field.
    `joinRoom` appends one entry, and `disconnect` filters out every entry
    of that socket.
  - **Handlers.** The register, list and get-by-email handlers are pure maps
    from the outcome of their store call to the HTTP response. Both reads
    project away the password.

Files, one module each:

| file | module | models |
|---|---|---|
| `wrappers.dfy` | `Wrappers` | `Option` and `Result` |
| `js_regex.dfy` | `JsRegex` | ECMAScript character classes (`\d`, `\w`, `\W`, `\s`, `.`), `{n}`, `+`, `.{n,}` and `(?=.*[...])` over whole strings |
| `user_schema.dfy` | `UserSchema` | the schema's paths, patterns, `required`, validity and the failing-path set |
| `user_store.dfy` | `UserStore` | stored documents, `save()` with the unique indexes, `findOne` by email |
| `handlers.dfy` | `Handlers` | register / list / get-by-email responses and the password-free projection |
| `presence.dfy` | `Presence` | the `liveUsers` list, `joinRoom`, `disconnect` |

Facts about the code that a reader might expect otherwise:

- **Duplicate joins.** `joinRoom` appends an entry; it never replaces an
  entry of the same socket, so a socket that joins twice is listed twice
  (`JoinRoom`, `JoinTwiceThenDisconnect`).
- **No check of the joined user's fields.** `joinRoom` checks only that the
  user id resolves; an empty email or name is listed as it is.
- **Broadcast on disconnect.** `disconnect` always broadcasts, also for a
  socket that never joined.
- **Validation errors.** Validation is left to the schema, which checks every
  path and reports every failing one (`InvalidPaths`), not just the first.
- **Names and address.** The names need only be present; they have no
  format check. No part of the address is checked.
- **Error bodies.** The duplicate-key response does not say which index was
  hit. The 500 response carries the error's own message.

## Model

| member | source | states |
|---|---|---|
| `JsRegex.RepeatIff` | backend/models/User.js:10 | a string matches `^[c]{n}$` iff it has exactly n characters, all in class c |
| `JsRegex.PlusIff` | backend/models/User.js:18 | a string matches `^[c]+$` iff it is non-empty and every character is in class c |
| `JsRegex.DotsAtLeastIff` | backend/models/User.js:35 | a string matches `^.{n,}$` iff it has no line terminator and at least n UTF-16 code units |
| `JsRegex.DotsThenIff` | backend/models/User.js:35 | `(?=.*[c])` succeeds iff some character in c is preceded only by non-line-terminators |
| `UserSchema.InvalidPaths` | backend/models/User.js:3-37 | the set of failing paths is empty iff the document passes every validator |
| `UserSchema.InvalidPathsRules` | backend/models/User.js:3-37 | a path is reported iff its field is missing or breaks its plain rule; the names need only be present |
| `UserSchema.MobileNoMatchesIff` | backend/models/User.js:10 | `/^\d{10}$/` accepts exactly the strings of ten ASCII digits |
| `UserSchema.LoginIdMatchesIff` | backend/models/User.js:30 | `/^[a-zA-Z0-9]{8}$/` accepts exactly the strings of eight ASCII letters or digits |
| `UserSchema.EmailIdMatchesIff` | backend/models/User.js:18 | the email pattern accepts exactly: no whitespace, one `@`, a non-empty local part, and a `.` in the domain that is neither its first nor its last character |
| `UserSchema.EmailPatternGivesRule` | backend/models/User.js:18 | every string the email pattern accepts satisfies the plain email rule |
| `UserSchema.EmailRuleGivesPattern` | backend/models/User.js:18 | every string satisfying the plain email rule is accepted by the email pattern |
| `UserSchema.PasswordMatchesIff` | backend/models/User.js:35 | the password pattern accepts exactly: at least 6 UTF-16 units, no line terminator, a lower-case letter, an upper-case letter and a character outside `[A-Za-z0-9_]` |
| `UserSchema.IsValidUserIff` | backend/models/User.js:3-37 | a document is accepted iff the six required fields are present and the four format rules hold; the address never affects the verdict |
| `UserSchema.PasswordTooWeakRejected` | backend/models/User.js:35 | `"abc"` is rejected |
| `UserSchema.PasswordStrongAccepted` | backend/models/User.js:35 | `"Abcdef!"` is accepted |
| `UserSchema.PasswordUnderscoreIsNoSymbol` | backend/models/User.js:35 | `"Abcdef_"` is rejected: `_` does not count as a symbol |
| `UserSchema.MobileNoAccepted` | backend/models/User.js:10 | `"9876543210"` is accepted |
| `UserSchema.MobileNoWrongLengthRejected` | backend/models/User.js:10 | nine and eleven digits are rejected |
| `UserSchema.MobileNoNonDigitRejected` | backend/models/User.js:10 | a `-` among the digits is rejected |
| `UserSchema.LoginIdAccepted` | backend/models/User.js:30 | `"user1234"` is accepted |
| `UserSchema.LoginIdRejected` | backend/models/User.js:30 | an underscore, or seven characters, is rejected |
| `UserSchema.EmailIdAccepted` | backend/models/User.js:18 | `"a@x.com"` is accepted |
| `UserSchema.EmailIdWithoutInnerDotRejected` | backend/models/User.js:18 | a domain with no dot, or with the dot last, is rejected |
| `UserSchema.EmailIdWithEmptyLocalPartRejected` | backend/models/User.js:18 | an empty local part is rejected |
| `UserSchema.EmailIdWithTwoAtSignsRejected` | backend/models/User.js:18 | two `@` are rejected |
| `UserSchema.EmailIdWithSpaceRejected` | backend/models/User.js:18 | a space is rejected |
| `UserStore.Save` | backend/models/User.js:14-31 | validation runs first; a valid document is refused with a duplicate-key error iff a stored user shares its id, emailId or loginId; otherwise it is appended and unique keys are preserved |
| `UserStore.ReplayKeepsKeysUnique` | backend/models/User.js:17-29 | from unique keys, any series of registrations keeps id, emailId and loginId each unique |
| `UserStore.FindByEmail` | backend/server.js:82 | the lookup misses iff no stored user has the email; otherwise it returns a stored user with that email |
| `UserStore.FindByEmailUnique` | backend/server.js:82 | with unique keys, the lookup returns the one user holding the email |
| `UserStore.SaveThenFind` | backend/server.js:60 | after a successful save the new document is found by its email |
| `UserStore.DuplicateIdRefused` | backend/server.js:59-60 | a valid registration that reuses a stored id is refused as a duplicate |
| `UserStore.DuplicateEmailRefused` | backend/models/User.js:17 | a valid second registration reusing a stored email is refused as a duplicate, and the first user is still found |
| `Handlers.WithoutPasswordHidesOnlyPassword` | backend/server.js:72 | two users project alike iff they differ in nothing but the password |
| `Handlers.ProjectAll` | backend/server.js:72 | the list projection keeps every user, in order, each without its password |
| `Handlers.RegisterResponse` | backend/server.js:61-65 | 201 with the id iff the save succeeded; 400 iff the error has code 11000 or is a ValidationError; otherwise 500; code 11000 is checked first |
| `Handlers.ListResponse` | backend/server.js:72-75 | 200 with every user minus the password, or 500 with the error's message |
| `Handlers.GetByEmailResponse` | backend/server.js:82-86 | 404 "User not found" iff the lookup missed; 200 with the user minus the password on a hit; 500 on an error |
| `Handlers.RegisterAgainstStore` | backend/server.js:57-66 | against the store, register answers 201 iff the submission is valid and clashes with no stored id, emailId or loginId, else 400; a refused save never yields 500 |
| `Handlers.GetByEmailAgainstStore` | backend/server.js:80-88 | against a store with unique keys, 404 iff no user has the email, else 200 with that user minus the password |
| `Handlers.RegisteredUserReadBack` | backend/server.js:57-88 | a registered user fetched by email returns every submitted field except the password |
| `Presence.WithoutMembers` | backend/server.js:51 | an entry survives a disconnect iff it was listed and belongs to another socket |
| `Presence.WithoutAppend` | backend/server.js:51 | the filter distributes over concatenation, so kept entries keep their relative order |
| `Presence.WithoutUnjoined` | backend/server.js:51 | disconnecting a socket with no entries leaves the list unchanged |
| `Presence.WithoutCounts` | backend/server.js:51 | a disconnect removes exactly the socket's entries and leaves other sockets' counts alone |
| `Presence.LiveUsers.constructor` | backend/server.js:29 | the live-user list starts empty |
| `Presence.LiveUsers.JoinRoom` | backend/server.js:34-48 | a lookup miss changes nothing and emits nothing. A hit appends one entry (socket id, emailId, first name + " " + last name) after the unchanged old entries, raises that socket's count by one and broadcasts the list |
| `Presence.LiveUsers.Disconnect` | backend/server.js:50-53 | the list becomes the old list without the socket's entries; it is broadcast; it is unchanged if the socket never joined |
| `Presence.JoinTwiceThenDisconnect` | backend/server.js:41-51 | two joins from one socket give two identical entries, and its disconnect removes both |

## Left out

- The HTTP and Socket.io wiring is not modelled. This covers routes,
  middleware, CORS, `server.listen`, room membership (`socket.join`) and
  delivery by `io.to(...).emit`. A broadcast is modelled only as the payload
  it carries.
- MongoDB I/O is replaced by parameters and by a sequence of documents.
  - The connection is not modelled.
  - `findById` in `joinRoom` becomes the `Option<User>` that `JoinRoom`
    receives.
  - The order of `find()` and `findOne` is taken to be insertion order.
  - A document's id is a parameter of `Save`. It stands for a generated id
    or for an `_id` the submission carries; how ids are generated is not
    modelled.
  - The `createdAt`/`updatedAt` timestamps and the version key are not
    modelled.
- In the register, list and get-by-email handlers, errors other than a
  refused save are parameters. Examples are a lost connection or a failed
  cast. They reach those handlers as a `StoreError`. `Save` itself has no
  such failure.
- Presence.LiveUsers.JoinRoom: a rejected `findById` is not modelled. That
  covers a CastError for an id that is not an ObjectId, and a lost
  connection. On such a rejection the handler stops before `socket.join`,
  `push` and `emit`, so the list is left as in the `None` case. The handler
  has no try/catch, so the rejection goes unhandled; that is not captured.
  Under Node's default setting such a rejection ends the process.
- Mongoose's casting of non-string values and its dropping of undeclared
  fields are not modelled. Submissions are modelled as optional strings.
- Mongoose's `required` check on strings also rejects the empty string. The
  model treats any supplied value as present. This changes the verdict only
  for `firstName` and `lastName`, because every format pattern already
  rejects `""`.
- Validation and error message texts are a parameter. This covers the
  mobile-number message template and the combined `ValidationError`
  message.
- Socket events and HTTP requests are modelled one at a time. Their
  interleaving is not modelled. It has one visible effect on the live-user
  list. `joinRoom` awaits its user lookup, and a `disconnect` of the same
  socket can run during that wait. The later `push` then leaves an entry
  that no later `disconnect` removes.
- Logging, `dotenv`, the port and the connection string are not modelled.
- The Zs set inside `\s` is fixed in the model at the current Unicode
  version; it is not taken from the JavaScript engine's Unicode version.
- Dafny characters are Unicode code points, so lone UTF-16 surrogates cannot
  be written. Code-unit counting is modelled only where it changes a result,
  which is the password's `.{6,}`.
