# StockUp inventory core in Dafny

StockUp is an inventory manager: an Express/Mongoose server holding products, a
movement log, low-stock alerts and user accounts, and a React dashboard. This
project models the server's request handlers and schema rules, and the pure
parts of the dashboard, and proves the properties the code promises:

- `Inventory` is the product table, the movement log and the alert table, as one
  `InventoryStore` class. Its methods are the create/update/delete handlers of
  `server/routes/products.js` and the resolve/generate-PO handlers of
  `server/routes/alerts.js`. Every stock change appends a balanced audit record
  (`newStock = oldStock + quantity`). For every product the recorded quantities
  sum to its current stock, and to zero once it is deleted. Stock stays
  non-negative and SKUs stay unique. No product ever has two unresolved alerts.
  Broadcast alerts go to a ghost outbox `emitted`.
- `MovementLogs` is the read-only log query: optional filters combined with
  "and", early empty answers, an end date that covers its whole day, and newest
  first ordering.
- `Users` is the user table as a `UserStore` class: duplicate checks, partial
  updates, and guards against deleting oneself or removing or demoting the last
  admin. The table never loses its last admin.
- `Auth` is the bearer-token middleware, role authorisation, signup with its
  ordered checks, login with uniform failures, and `/me`.
- `Models` holds the four Mongoose schemas, with their setters, validators,
  defaults and the password pre-save hook.
- `Dashboard` holds the two form validators, the real-time alert merge and the
  user-list update.
- `Common` and `Sorting` hold shared code:
  - JavaScript `trim`, `length` in UTF-16 code units, ASCII lower-casing and decimal rendering;
  - insertion sorts proved to return a sorted permutation of their input.

The clock, token verification, the email pattern and MongoDB's case-insensitive
`$regex` test are parameters (`now`, `verify`, `isEmail`, `matches`). Every
property holds for every choice of them. bcrypt is replaced by a salt-free
injective stand-in, `Hash(p) = "$2a$10$" + p`. Ids are natural numbers drawn
from one counter per collection.

## Model

| member | source | states |
|---|---|---|
| Common.Trim | server/models/Product.js:6-8 | the `trim: true` setter gives a string with no JavaScript whitespace at either end, no longer than the input |
| Common.TrimStartSpec | server/models/User.js:10 | what trimming the front drops is a prefix made only of whitespace, and the rest does not start with whitespace |
| Common.TrimEndSpec | server/models/User.js:10 | what trimming the end drops is a suffix made only of whitespace, and the rest does not end with whitespace |
| Common.TrimOfTrimmed | server/models/Product.js:6-8 | trimming an already trimmed string changes nothing |
| Common.TrimIdempotent | server/models/User.js:10 | running the trim setter twice equals running it once |
| Common.Lower | server/models/User.js:18 | `lowercase: true` keeps the length and lower-cases each character |
| Common.JsLength | server/routes/auth.js:29-32 | `.length` counts UTF-16 code units: at least one and at most two per character |
| Common.JsLengthAppend | server/models/User.js:24 | the code-unit length of a concatenation is the sum of the parts' lengths |
| Common.JsLengthOfBmp | server/models/User.js:11 | for characters of the Basic Multilingual Plane, code units and characters agree |
| Common.AstralCountsTwice | server/routes/auth.js:29 | a character outside the Basic Multilingual Plane counts twice, so a two-character string can have length 3 |
| Common.NatToString | server/routes/products.js:150 | the stock and threshold rendered into the alert message are non-empty digit strings |
| Common.NatToStringRoundTrip | server/routes/products.js:150 | the rendered number reads back as the same number |
| Sorting.SortDesc | server/routes/alerts.js:21 | `.sort({ createdAt: -1 })` gives a newest-first permutation of its input |
| Sorting.SortAsc | server/routes/products.js:28 | `.sort({ name: 1 })` gives an ascending permutation of its input |
| Sorting.StrLeTotal | server/routes/users.js:10 | any two strings are comparable in the code-point order used for sorting |
| Sorting.StrLeTransitive | server/routes/users.js:10 | the string order is transitive |
| Sorting.StrLeAntisymmetric | server/routes/users.js:10 | strings that are each at most the other are equal |
| Models.TrimOpt | server/models/Product.js:6-8 | a missing path stays missing; a present one is trimmed |
| Models.ProductErrors | server/models/Product.js:6-25 | no validation error exactly when the document is valid; each path is flagged exactly when its own validator fails |
| Models.AcceptedDocIsValid | server/routes/products.js:42-43 | a body that validates after the setters run yields a product meeting every schema constraint |
| Models.StoredProductRoundTrip | server/routes/products.js:102-106 | a stored product validates again and is rebuilt unchanged |
| Models.ParseAction | server/models/MovementLog.js:14-19 | the action enum accepts a string only as the name of one of the seven actions |
| Models.ActionNameRoundTrip | server/models/MovementLog.js:14-19 | every action's name is accepted as that action |
| Models.NewAlert | server/models/Alert.js:4-9 | a new alert has `resolved` and `poGenerated` false and the given product, type, message and time |
| Models.ParseRole | server/models/User.js:26-30 | the role enum accepts exactly `admin` and `staff` |
| Models.UserErrors | server/models/User.js:5-31 | each user path is flagged exactly when its required, minlength (in UTF-16 code units), match or enum validator fails |
| Models.RoleOrDefault | server/models/User.js:29 | a missing role becomes `staff`; a given valid role is kept |
| Models.Hash | server/models/User.js:40-41 | the stand-in hash is longer than its input by a fixed prefix |
| Models.HashInjective | server/models/User.js:46-49 | different passwords never share a hash |
| Models.PreSave | server/models/User.js:34-43 | the hook hashes the password only when the path was modified |
| Models.PreSaveKeepsLogin | server/models/User.js:34-49 | saving an untouched password keeps logins working; after hashing a modified one, exactly that password matches |
| Inventory.CreateLog | server/routes/products.js:49-57 | the Create record has `oldStock` 0 and `newStock = quantity = stock`, and is balanced |
| Inventory.StockChangeLog | server/routes/products.js:113-135 | no record iff stock is unchanged; otherwise a balanced record of the signed change, `Restock` iff stock rose and `Sale` iff it fell |
| Inventory.DeleteLog | server/routes/products.js:212-219 | the Delete record has `quantity = -stock`, `oldStock = stock`, `newStock` 0, and is balanced |
| Inventory.NetQuantityAppend | server/models/MovementLog.js:20-23 | appending a record changes a product's net quantity by exactly that record's signed quantity |
| Inventory.NetQuantityUnmentioned | server/models/MovementLog.js:20-23 | a product no record mentions has net quantity 0 |
| Inventory.LowStockMessage | server/routes/products.js:150 | the low-stock message is non-empty, so it meets the required `message` |
| Inventory.LowStockAlert | server/routes/products.js:147-151 | the opened alert is a `low_stock` alert for the product, with neither flag set |
| Inventory.WithoutProduct | server/routes/products.js:207 | `deleteMany({ product })` keeps exactly the alerts of other products, unchanged |
| Inventory.AtMostOneMeansCountAtMostOne | server/routes/products.js:143-151 | in the pairwise form of the alert guarantee, every product has at most one unresolved alert |
| Inventory.CountAtMostOneMeansAtMostOne | server/routes/products.js:143-151 | at most one unresolved alert per product gives the pairwise form |
| Inventory.OpeningKeepsAtMostOne | server/routes/products.js:143-151 | opening an alert where none is open keeps the guarantee and leaves exactly that one open |
| Inventory.NoSecondAlert | server/routes/products.js:143-168 | while an alert is open for the product, no update opens another |
| Inventory.StockNeutralOrRisingUpdateIsQuiet | server/routes/products.js:113-142 | an update that does not lower stock opens no alert; one that keeps stock writes no record |
| Inventory.ReflaggingKeepsAtMostOne | server/routes/alerts.js:34-39 | changing flags on an alert without re-opening it keeps the guarantee |
| Inventory.Patched | server/routes/products.js:102-106 | a path the body omits keeps its stored value; a path it sets takes the new value |
| Inventory.ApplyPatch | server/routes/products.js:102-106 | a body that omits stock or threshold leaves them as stored |
| Inventory.EmptyPatchIsIdentity | server/routes/products.js:102-106 | an empty update body is accepted and changes nothing |
| Inventory.CreateKeepsInvariant | server/routes/products.js:42-57 | adding a fresh valid product with its Create record keeps every store invariant |
| Inventory.UpdateKeepsInvariant | server/routes/products.js:102-131 | replacing a product with a valid version and recording the stock change keeps every store invariant |
| Inventory.OpenAlertKeepsInvariant | server/routes/products.js:142-151 | opening an alert for a product with none open keeps every store invariant |
| Inventory.DeleteKeepsInvariant | server/routes/products.js:202-219 | removing a product and its alerts and recording the Delete keeps every store invariant |
| Inventory.ReflagKeepsInvariant | server/routes/alerts.js:93-96 | resolving or marking a purchase order keeps every store invariant |
| Inventory.InventoryStore.CreateProduct | server/routes/products.js:37-90 | 201 with one Create record when the body validates and the SKU is free; otherwise 400 and no change; alerts untouched |
| Inventory.InventoryStore.UpdateProduct | server/routes/products.js:93-197 | unknown id gives 404; an invalid or duplicate-SKU body gives 400; both leave the store unchanged. Otherwise 200: the product is replaced, at most one stock record is added, and an alert is opened and broadcast exactly when the update crosses the threshold with none open |
| Inventory.InventoryStore.CommitUpdate | server/routes/products.js:102-169 | the write half of an accepted update: product replaced, stock change recorded, alert step applied, invariants kept |
| Inventory.InventoryStore.RaiseLowStock | server/routes/products.js:142-169 | a fresh low-stock alert is stored and broadcast exactly when stock fell to or below the threshold and none is open |
| Inventory.InventoryStore.DeleteProduct | server/routes/products.js:200-231 | unknown id gives 404 and changes nothing; otherwise 204, the product and all its alerts removed, and one Delete record added |
| Inventory.InventoryStore.ResolveAlert | server/routes/alerts.js:31-43 | unknown id gives 404; otherwise only that alert's `resolved` becomes true; nothing else changes |
| Inventory.InventoryStore.GeneratePurchaseOrder | server/routes/alerts.js:63-101 | unknown id gives 404; an alert with a purchase order already gives 409 and no change; otherwise only its `poGenerated` becomes true, whatever `resolved` is |
| Inventory.ListProducts | server/routes/products.js:9-29 | exactly the products matching the category, brand and search filters, each once, sorted by name |
| Inventory.InventorySummary | server/routes/products.js:234-242 | `totalProducts` is the product count; `lowStockCount` counts products with stock at or below threshold and is at most the total |
| Inventory.ViewOf | server/routes/alerts.js:12-17 | `resolved=true` selects resolved alerts, `resolved=all` every alert, and anything else the unresolved ones |
| Inventory.ListAlerts | server/routes/alerts.js:8-23 | exactly the selected alerts, each once, newest first |
| Inventory.ListAlertsModes | server/routes/alerts.js:12-21 | the three listing modes, stated directly on the alerts' `resolved` flag |
| MovementLogs.EndOfDay | server/routes/logs.js:62 | the end-date bound is the last millisecond of the day the date falls on |
| MovementLogs.EndOfDayInclusive | server/routes/logs.js:59-64 | a moment is within the bound exactly when it falls on that day or earlier |
| MovementLogs.FindLogs | server/routes/logs.js:70 | `find(query)` returns stored records, each exactly when it matches the query object |
| MovementLogs.FindAll | server/routes/logs.js:70 | a query every record matches returns the whole log |
| MovementLogs.QueryLogs | server/routes/logs.js:70-73 | the answer is newest first and drawn from the stored log |
| MovementLogs.CriteriaMeaning | server/routes/logs.js:16-65 | the query object matches a record exactly when the record satisfies every supplied filter |
| MovementLogs.EarlyAnswerLosesNothing | server/routes/logs.js:16-46 | when a name or user search matches nothing, no record satisfies the filters, so the early `[]` is right |
| MovementLogs.QueryMeaning | server/routes/logs.js:12-73 | a stored record is returned exactly when it satisfies every supplied filter |
| MovementLogs.NoFiltersListsAll | server/routes/logs.js:12-73 | with no parameters every record is returned, newest first |
| MovementLogs.NoMatchIsEmpty | server/routes/logs.js:20-45 | a name or user search that matches nothing gives the empty list |
| Users.PublicView | server/routes/users.js:10 | the returned user view carries the id, username, email and role, and has no password field |
| Users.ViewForgetsOnlyPassword | server/routes/users.js:10 | two users have the same view exactly when they differ at most in the password |
| Users.InsertKeepsInvariant | server/models/User.js:6-25 | inserting a valid user with a free email and username keeps both unique indexes and the id discipline |
| Users.ReplaceKeepsInvariant | server/routes/users.js:107 | saving a valid user whose email and username no other user holds keeps the table invariant |
| Users.RemovingKeepsAnAdmin | server/routes/users.js:146-152 | removing anyone but the only admin leaves an admin |
| Users.ReplacingKeepsAnAdmin | server/routes/users.js:83-88 | replacing a user leaves an admin unless the only admin is demoted |
| Users.StoredPasswordAsWritten | server/routes/users.js:102-107 | as written, a new password is stored hashed twice |
| Users.AsWrittenLocksOut | server/models/User.js:34-43 | as written, the new password no longer logs in |
| Users.PasswordValidatedAsWritten | server/routes/users.js:102-105 | as written, the `minlength` validator sees the hash, which is always long enough |
| Users.AsWrittenAcceptsShortPassword | server/models/User.js:21-25 | as written, the one-character password `a` passes validation |
| Users.StoredPasswordCorrected | server/models/User.js:34-43 | corrected: the plain password is assigned and hashed once by the hook; an omitted one is kept |
| Users.PasswordValidatedCorrected | server/models/User.js:21-25 | corrected: the validator sees the supplied plain password |
| Users.CorrectedKeepsLogin | server/models/User.js:34-49 | corrected: exactly the new password logs in, and it is rejected exactly when shorter than 6 |
| Users.AppliedDoc | server/routes/users.js:99-105 | corrected: every path is set; a supplied field takes the trimmed (and, for the email, lower-cased) value, and an omitted one keeps its stored value. A supplied password is kept as plain text for the validator, and the stored password otherwise |
| Users.UpdateTouchesOnlyGivenFields | server/routes/users.js:99-105 | corrected: an update changes only the supplied fields, through their setters; a supplied password is the one that logs in |
| Users.SelfDemotionGuardSubsumed | server/routes/users.js:90-95 | the second demotion guard never rejects a request the first one let through |
| Users.UserStore.Register | server/routes/auth.js:58 | inserts one user under a fresh id with the password hashed once; nothing else changes |
| Users.UserStore.CreateUser | server/routes/users.js:37-69 | an email or username already taken, or a validation failure, gives 400 with no change; otherwise 201, exactly one new user, and a view without password |
| Users.UserStore.UpdateUser | server/routes/users.js:72-133 | unknown id gives 404. Demoting the only admin, counting an omitted role as a demotion, gives 400. Otherwise the update is validated and checked for duplicates: 400 and no change, or 200 with only that user replaced. An admin always remains |
| Users.UserStore.DeleteUser | server/routes/users.js:136-169 | deleting oneself gives 400 first; the only admin gives 400; an unknown id gives 404; otherwise 204 and exactly that user removed. An admin always remains |
| Users.ListUsers | server/routes/users.js:8-16 | every user once, as a password-free view, sorted by email |
| Users.FindUser | server/routes/users.js:19-33 | a stored id gives 200 and its view; any other gives 404 |
| Users.FindUserAnswersThatUser | server/routes/users.js:21 | in a valid table, 200 exactly when some stored user has that `_id`, and the view returned carries that id |
| Auth.UpToSpace | server/middleware/auth.js:9 | the text before the first space, containing no space |
| Auth.SecondField | server/middleware/auth.js:9 | `split(' ')[1]` is `undefined` exactly when the header has no space |
| Auth.BearerTokenExtracted | server/middleware/auth.js:6-9 | from `Bearer <token>` the token is extracted intact |
| Auth.AuthenticateJWT | server/middleware/auth.js:4-36 | every rejection is 401; the request proceeds exactly when the header starts with `Bearer `, the token verifies, and its user exists; the request user is that stored user |
| Auth.HeaderCheckedBeforeVerify | server/middleware/auth.js:6-8 | a missing or non-Bearer header gets 401 whatever the verifier would say |
| Auth.AuthorizeRole | server/middleware/auth.js:39-54 | proceeds exactly when the user has a role and it is in the allowed list; otherwise 403 |
| Auth.SingleRoleIsListOfOne | server/middleware/auth.js:41 | `authorizeRole(r)` behaves as `authorizeRole([r])` |
| Auth.AdminRoutesAdmitOnlyAdmins | server/middleware/auth.js:4-54 | behind the admin guard only a stored admin proceeds; unauthenticated requests get 401 and staff get 403 |
| Auth.SignupCheck | server/routes/auth.js:26-37 | the first failing check of missing fields, short username, short password (lengths in UTF-16 code units), bad email is the one reported; none fails exactly when all pass |
| Auth.SignupRole | server/routes/auth.js:54-55 | the stored role is admin exactly when `admin` was requested, and `staff` otherwise |
| Auth.SignedUpUser | server/routes/auth.js:58 | the created account has the trimmed username, the trimmed lower-cased email, the requested password as its login, and the normalised role |
| Auth.SignUp | server/routes/auth.js:20-79 | failed checks give 400, a taken email 409 before a taken username 409, a schema failure 400, all with no change; otherwise 201 and exactly one new user, returned without password |
| Auth.FindByEmail | server/routes/auth.js:87 | returns a stored user holding the normalised email, and none exactly when no user holds it |
| Auth.LoginLookup | server/routes/auth.js:87 | a given email is looked up through the schema's setters. An omitted email leaves the filter empty and finds the first stored user, or none only when there are no users |
| Auth.Login | server/routes/auth.js:84-102 | no user found gives 400 `Invalid credentials`. For a found user, a missing password gives 500 and a wrong one 400 `Invalid credentials`. Otherwise 200 with the stored user's view; no user is returned on any failure |
| Auth.OmittedEmailLogsInFirstUser | server/routes/auth.js:85-92 | without an email, the first stored user's password logs that user in, and a missing password gives 500 |
| Auth.LoginFailuresUniform | server/routes/auth.js:87-92 | an unknown email and a wrong password get the same 400 `Invalid credentials` |
| Auth.FindByEmailFindsHolder | server/routes/auth.js:87 | with unique emails, the user found is the one holding the email |
| Auth.SignupThenLogin | server/routes/auth.js:58-96 | whoever signed up logs in with the same email and password |
| Auth.PasswordChangeThenLogin | server/routes/users.js:102-107 | with the corrected update, the new password logs in |
| Auth.Me | server/routes/auth.js:107-129 | no header gives 401. 200 exactly when the token verifies and its user exists, with that user's view. A deleted user gives 401, and so do expired and malformed tokens; a not-yet-valid token gives 500 |
| Dashboard.ProductErrorCount | src/pages/Dashboard.jsx:171 | the error count is zero exactly when no field has an error |
| Dashboard.CheckProductText | src/pages/Dashboard.jsx:154-160 | name (length in UTF-16 code units), SKU and barcode are each flagged exactly when their rule fails, with the right message |
| Dashboard.CheckProductAmounts | src/pages/Dashboard.jsx:162-168 | stock, threshold, price, category and expiry are each flagged exactly when their rule fails |
| Dashboard.ValidateProductForm | src/pages/Dashboard.jsx:152-172 | true exactly when no field is flagged. Name needs 2 trimmed characters. The trimmed SKU must be 3-20 characters from `[A-Z0-9-]`. A non-empty barcode must be 8-13 digits. Numbers must be non-negative and not NaN. Category is required. Expiry must be after `now` |
| Dashboard.UserErrorCount | src/pages/Dashboard.jsx:2068 | the error count is zero exactly when no field has an error |
| Dashboard.ValidateUserForm | src/pages/Dashboard.jsx:2053-2069 | true exactly when no field is flagged. Username needs a trimmed length of 3 UTF-16 code units. Email is required and must match. A new user needs a password, and an edit needs a length of 6 only when it supplies one. Role is required |
| Dashboard.SomeWithId | src/pages/Dashboard.jsx:1459 | `some(alert => alert._id === id)` holds exactly when some entry has the id |
| Dashboard.MergeAlert | src/pages/Dashboard.jsx:1458-1463 | a known id leaves the list alone; a new one is appended |
| Dashboard.MergeAlertProperties | src/pages/Dashboard.jsx:1458-1463 | merging twice equals merging once; existing entries keep their places; the id is then present; ids stay unique |
| Dashboard.ReplaceById | src/pages/Dashboard.jsx:2313 | the entry with the saved id is replaced, the others are kept, and the length is unchanged |
| Dashboard.HandleUserSaved | src/pages/Dashboard.jsx:2311-2318 | creating appends the saved user; editing keeps the length |
| Dashboard.EditReplacesInPlace | src/pages/Dashboard.jsx:2312-2314 | an edit replaces exactly the matching entry, repeating it changes nothing, and ids stay unique |

## Left out

- Concurrency: each handler runs to completion before the next starts. The read-then-write steps of the update handler and of the alert check are not interleaved. The one-open-alert guarantee depends on this.
- Socket.IO: the `low_stock_alert` broadcast is the ghost outbox `emitted`. The transport, the listener set-up and the browser notification are not modelled.
- `inventoryValue` in the summary: it is a floating-point sum of `stock * price`.
- `/stock-trends` and `/top-selling`: they return random placeholder data.
- JWT signing and verification: `verify` is a parameter. The signup and login responses' tokens are not modelled.
- bcrypt: its salting and cost are replaced by the injective stand-in `Hash`. Only "hashing is injective" and "a hash of a hash is not the hash" are used.
- The email pattern and the case-insensitive `$regex` search: both are parameters. Regular-expression matching itself is not modelled.
- The local-time zone of `setHours(23, 59, 59, 999)`: days are counted in UTC. Invalid date strings are not modelled.
- Stock and threshold are integers. Fractional JavaScript numbers are not modelled; price is a real.
- `toLowerCase` is modelled on ASCII letters only.
- Mongoose and MongoDB machinery:
  - `populate`;
  - `CastError` on malformed ids;
  - connection failures and the other 500 paths;
  - the shape of error objects and their messages.
- `null` and `undefined` in request bodies are one case, `None`.
- Auth.LoginLookup: an omitted email is read as `undefined`, which leaves the `findOne` filter empty. A JSON `null` email would instead match no user and give 400; the model does not distinguish it.
- Array-valued query parameters are not modelled.
- `server/routes/categories.js` and `server/routes/brands.js`: plain CRUD wrappers without logic.
- The PO-generation console output and the supplier notification it mentions: neither changes state.
- The dashboard re-fetches the user list after `handleUserSaved` (`fetchUsers`). That is a network call.
- `formData.stock === ''` in the product form: the number fields are read with `Number`, so the model sees only a number or NaN.
- SKU changes on update are allowed, as the handler allows them. Only uniqueness is enforced; the SKU is not treated as immutable.
- Auth.FindByEmail: `findOne` returns the stored user with the smallest id. The order MongoDB actually uses is not modelled; emails are unique, so at most one user matches.
- Users.UserStore.UpdateUser: stores the corrected password, hashed once; the as-written double hashing is modelled separately (see Findings). Because the model validates the plain password rather than its hash, a supplied password of 1 to 5 characters gives 400 here, where the code as written validates the 60-character hash and gives 200.
- Users.AppliedDoc: builds the corrected document (plain password, validated before hashing), so it differs from the code as written for the same short-password case as Users.UserStore.UpdateUser.
- Users.UpdateTouchesOnlyGivenFields: states the corrected update; as written the supplied password is stored double-hashed and does not log in (Users.AsWrittenLocksOut).

## Findings

| source | as written | input that shows it | evidently intended | confidence | as-written member | corrected member |
|---|---|---|---|---|---|---|
| server/routes/users.js:102-107 | PUT `/api/users/:id` hashes a supplied password, then the `pre('save')` hook (server/models/User.js:34-43) hashes the hash again | an admin sets the password `secret1`; the user then logs in with `secret1` | the plain password is hashed once, so the new password logs in | not executed; high | Users.AsWrittenLocksOut | Users.CorrectedKeepsLogin |
| server/routes/users.js:102-105 | the `minlength: 6` validator (server/models/User.js:21-25) checks the handler's hash, not the supplied password | an admin sets the password `a`; the update is accepted | a new password shorter than 6 characters is rejected | not executed; high | Users.AsWrittenAcceptsShortPassword | Users.CorrectedKeepsLogin |
