# E-commerce backend: a Dafny model

This project models the server side of a small SvelteKit shop backed by MongoDB, plus
the browser's authentication stores and the shop page's product search. It covers:

- the Mongoose schemas, their defaults and the connection guard (`src/lib/db.ts`);
- the credential ladder each protected handler runs first. A token comes from an
  `Authorization: Bearer` header (section 2.1 of RFC 6750) or from the `authToken`
  cookie. It is verified as a JWT (RFC 7519). Depending on the handler, a string
  payload or a payload without `id` is then refused;
- the cart, checkout, orders, login, signup, profile, session and profile-picture
  handlers;
- the `verifyToken` helper;
- the client stores in `lib/stores/auth.ts`;
- the shop page's `load`.

Each handler is a pure function from the request, the collections it touches and the
failures that may occur to the response and the new collections. Where a handler changes
state, a method on `Db.Store` performs the same steps on the store's fields. Its
`ensures` equates the new state with the function applied to the old state, and it keeps
the store's invariant:

- unique, non-empty user ids;
- unique emails;
- one cart per user, keyed by its owner;
- unique order ids, and every order passes schema validation.

Oracles stand in for code outside the model:

- `jwt.verify` and `jwt.sign` are function parameters (`Gate.Verifier`, `Gate.Signer`).
  jsonwebtoken's own guard against an empty secret is written out: `Gate.Sign` throws
  "secretOrPrivateKey must have a value" before the signing oracle is consulted. Two
  predicates state what a proper JWT library guarantees. `Gate.Faithful`: a token
  verifies under the non-empty secret it was signed with. `Gate.NeedsSecret`: nothing
  verifies under the empty secret.
- `bcrypt.compare` and `bcrypt.hash` are function parameters.
- `crypto.randomBytes(32)` is a byte-sequence parameter.
- The id MongoDB assigns to a new document is a parameter.
- A store or file call that throws is a `Db.Fault` naming that call.
- `process.env` values are `Option<string>` parameters. JavaScript's `||` fallback on
  them is written out (`Common.EnvOr`).

## Model

| member | source | states |
|---|---|---|
| Strings.Split | ecommerce/src/lib/utils/auth.ts:19 | `split(" ")` always yields at least one field and no field contains the separator |
| Strings.JoinSplit | ecommerce/src/lib/utils/auth.ts:19 | joining the fields of a split with the separator gives back the original string |
| Strings.SplitJoin | ecommerce/src/lib/utils/auth.ts:19 | splitting a join of separator-free fields gives back those fields |
| Strings.FirstField | ecommerce/src/lib/utils/auth.ts:19 | the first field is a prefix that ends at the end of the string or at a separator |
| Strings.Hex | ecommerce/routes/api/users/signup/+server.ts:32 | `toString("hex")` gives two hex digits per byte |
| Strings.UnhexHex | ecommerce/routes/api/users/signup/+server.ts:32 | the hex encoding is lossless: decoding it gives back the bytes |
| Db.Connection.constructor | ecommerce/src/lib/db.ts:6 | the URI is `MONGO_URI` or "" and no connection is open |
| Db.Connection.ConnectToDatabase | ecommerce/src/lib/db.ts:8-27 | an open connection is reused unchanged; an empty URI fails with "Missing MONGO_URI environment variable." before any attempt; otherwise the attempt decides the result and the ready state |
| Db.ConnectTwice | ecommerce/src/lib/db.ts:9 | after one successful connection, a second call succeeds whatever its attempt would do |
| Db.NewUser | ecommerce/src/lib/db.ts:31-39 | a new user gets the given email, password and token, the default avatar, is unverified and has no reset token |
| Db.ProjectionDropsOnlyPassword | ecommerce/routes/api/users/profile/+server.ts:38 | `select("-password")` drops the password and nothing else |
| Db.FindByEmail | ecommerce/routes/api/users/login/+server.ts:15 | `findOne({ email })` finds the first user with that email, and nothing exactly when no user has it |
| Db.FindById | ecommerce/routes/api/users/profile/+server.ts:38 | `findById` finds the first user with that id; an absent id finds nothing |
| Db.FindByEmailUnique | ecommerce/src/lib/db.ts:32 | under the unique email index, the user found is the only user with that email |
| Db.FindByIdUnique | ecommerce/src/lib/db.ts:31 | under unique ids, `findById` finds the user with that id |
| Db.CartOf | ecommerce/src/routes/api/checkout/+server.ts:35 | `findOne({ userId })` finds the caller's cart exactly when the caller has one; with no id the filter is empty and the lookup returns the first cart, and nothing only when there is no cart |
| Db.NewProduct | ecommerce/src/lib/db.ts:42-49 | a product without image or stock gets "/default-product.png" and 10 |
| Db.StatusRoundTrip | ecommerce/src/lib/db.ts:64 | the status enum accepts exactly "pending", "shipped", "delivered" and "cancelled", each naming its status |
| Db.Store.constructor | ecommerce/src/lib/db.ts:82-85 | the collections start empty and valid |
| Http.Refusal | ecommerce/src/routes/api/orders/+server.ts:15-34 | always 401 with an error body; "No authentication token found." exactly for a missing token, "Invalid token format." exactly for a string payload, "Invalid or expired token." exactly for a failed verification, "Invalid token payload." exactly for a missing id |
| Gate.BearerToken | ecommerce/src/lib/utils/auth.ts:15-19 | the token is the space-free run after "Bearer ", ending at the end or at the next space |
| Gate.TokenOf | ecommerce/src/lib/utils/auth.ts:13-19 | a header yields a token exactly when it starts with "Bearer "; a cookie exactly when it is non-empty, and then the cookie itself |
| Gate.Authenticate | ecommerce/src/routes/api/orders/+server.ts:15-34 | the gate grants exactly when a token is found, verifies, and passes the string and `id` checks the handler asks for, and then hands on the verified payload; a failed verification is denied with the handler's status and the verifier's reason; a string payload, where refused, and then a payload without `id`, where required, are denied with 401 and their own denial |
| Gate.HandlerSecret | ecommerce/routes/api/users/login/+server.ts:8 | `JWT_SECRET \|\| "fallback_secret"` is never empty, and is the variable itself when it is set |
| Gate.Sign | ecommerce/src/routes/api/users/+server.ts:35-39 | `jwt.sign` throws "secretOrPrivateKey must have a value" exactly when the secret is empty, and otherwise returns the signing oracle's token |
| Gate.BearerTokenIsSecondField | ecommerce/src/lib/utils/auth.ts:19 | "Bearer t" and "Bearer t more" both yield `t` |
| Gate.VerifyToken | ecommerce/src/lib/utils/auth.ts:12-27 | 401 exactly without a Bearer header, 403 exactly when verification with `JWT_SECRET \|\| ""` fails, otherwise 200 with the verified payload, string payloads included |
| Gate.VerifyTokenNeedsSecret | ecommerce/src/lib/utils/auth.ts:7-25 | with `JWT_SECRET` unset or empty, a Bearer header is always 403 and a missing one 401: `verifyToken` never passes a token |
| Gate.VerifyTokenIgnoresCookie | ecommerce/src/lib/utils/auth.ts:13 | `verifyToken` reads only the header |
| CartApi.Replace | ecommerce/src/routes/api/cart/+server.ts:34-62 | POST on the store: the new carts and answer are those of the cart POST on the old carts; the store stays valid |
| CartApi.Clear | ecommerce/src/routes/api/cart/+server.ts:65-86 | DELETE on the store: the new carts and answer are those of the cart DELETE on the old carts |
| CartApi.GetCart | ecommerce/src/routes/api/cart/+server.ts:9-31 | GET answers 200 exactly when the gate grants and the lookup does not throw, and then with cart contents; otherwise "Unauthorized access" or "Invalid or expired token" |
| CartApi.PostCart | ecommerce/src/routes/api/cart/+server.ts:34-62 | POST answers 200, 401 or 500; 500 exactly for a Bearer request whose body does not parse; a failure changes no cart and a success adds at most one |
| CartApi.DeleteCart | ecommerce/src/routes/api/cart/+server.ts:65-86 | DELETE answers 200 or 401 and only removes carts, never changing one |
| CartApi.NoBearerIsUnauthorized | ecommerce/src/routes/api/cart/+server.ts:13-16 | without a Bearer header GET, POST and DELETE all answer 401 "Unauthorized access" and change nothing |
| CartApi.GetReturnsOwnItems | ecommerce/src/routes/api/cart/+server.ts:24-27 | GET answers the caller's items, or [] when there is no cart |
| CartApi.TryFailuresAreInvalidToken | ecommerce/src/routes/api/cart/+server.ts:20-61 | for GET, POST with a readable body, and DELETE, a failed verification, a payload without `id` or a failing lookup is 401 "Invalid or expired token" and changes no cart |
| CartApi.WriteFailuresAreInvalidToken | ecommerce/src/routes/api/cart/+server.ts:50-61 | a failing `save` in POST and a failing `findOneAndDelete` in DELETE are the same 401 and change no cart |
| CartApi.PostFailureChangesNothing | ecommerce/src/routes/api/cart/+server.ts:45-61 | a POST that does not answer 200 leaves every cart unchanged |
| CartApi.PostReadsBodyFirst | ecommerce/src/routes/api/cart/+server.ts:42-46 | the body is read before verification, so an unreadable body is a 500 even with a bad token |
| CartApi.PostReplacesOnlyCallersCart | ecommerce/src/routes/api/cart/+server.ts:50-56 | a successful POST gives the caller's cart exactly the submitted items and leaves every other cart as it was |
| CartApi.PostThenGet | ecommerce/src/routes/api/cart/+server.ts:50-58 | after a successful POST, GET answers exactly the posted items |
| CartApi.DeleteThenGet | ecommerce/src/routes/api/cart/+server.ts:80-82 | after a successful DELETE only the caller's cart is gone and GET answers [] |
| CheckoutApi.TotalAppend | ecommerce/src/routes/api/checkout/+server.ts:40 | the total of two item lists joined is the sum of their totals |
| CheckoutApi.TotalFirst | ecommerce/src/routes/api/checkout/+server.ts:40 | the total is the first item's price times quantity plus the total of the rest |
| CheckoutApi.Total | ecommerce/src/routes/api/checkout/+server.ts:40 | without negative prices or quantities the total is not negative |
| CheckoutApi.OrderEntries | ecommerce/src/routes/api/checkout/+server.ts:44-47 | as written there is one entry per item, and none has a name or price, so none meets the schema |
| CheckoutApi.SnapshotEntries | ecommerce/src/lib/db.ts:54-62 | the snapshot has one entry per item and every entry meets the schema |
| CheckoutApi.CheckoutWith | ecommerce/src/routes/api/checkout/+server.ts:10-59 | POST answers 201, 400, 401 or 500; it removes at most one cart and changes no other; it appends at most one order and changes none; a verified payload without `id` is let through and looks up the first cart |
| CheckoutApi.OrderEntriesCopyIdAndQuantity | ecommerce/src/routes/api/checkout/+server.ts:44-47 | each entry as written carries only the cart item's own id and its quantity |
| CheckoutApi.AuthFailureChangesNothing | ecommerce/src/routes/api/checkout/+server.ts:14-28 | a missing header, a failed verification or a string payload is the ladder's 401 and changes neither carts nor orders |
| CheckoutApi.MissingFieldsBeforeCart | ecommerce/src/routes/api/checkout/+server.ts:30-33 | a missing address or payment method is 400 whatever the carts and store failures |
| CheckoutApi.EmptyCartCreatesNoOrder | ecommerce/src/routes/api/checkout/+server.ts:35-38 | an absent or empty cart, which without an `id` is the first cart, is 400 "Cart is empty." and creates no order |
| CheckoutApi.IdlessCheckoutFails | ecommerce/src/routes/api/checkout/+server.ts:20-57 | a verified payload without `id` answers 400 when there is no cart or the first cart is empty, and otherwise 500 (the order lacks its required `userId`) with carts and orders unchanged |
| CheckoutApi.FailureKeepsCart | ecommerce/src/routes/api/checkout/+server.ts:42-57 | any answer but 201 keeps every cart; no order is created unless only the final cart delete failed |
| CheckoutApi.PlacedOrder | ecommerce/src/routes/api/checkout/+server.ts:40-54 | a 201 carries the new order's id; the order is the caller's, pending, has one entry per cart item and the cart's total; only the caller's cart is removed |
| CheckoutApi.OrderEntriesFailSchema | ecommerce/src/routes/api/checkout/+server.ts:44-47 | an order built from a non-empty cart as written fails the schema's required `name` |
| CheckoutApi.Checkout | ecommerce/src/routes/api/checkout/+server.ts:42-57 | as written, no checkout answers 201, and carts and orders stay as they were |
| CheckoutApi.CheckoutCorrected | ecommerce/src/routes/api/checkout/+server.ts:42-54 | with snapshot entries, every order the checkout appends passes the schema |
| CheckoutApi.SnapshotEntriesComplete | ecommerce/src/lib/db.ts:54-62 | the snapshot entries copy each item's product id, name, price, quantity and image, and satisfy the schema |
| CheckoutApi.CorrectedCheckoutPlaces | ecommerce/src/routes/api/checkout/+server.ts:40-54 | with snapshot entries, an authorised caller whose token names it, with a non-empty cart, an address and a payment method gets a valid order and loses the cart |
| CheckoutApi.Place | ecommerce/src/routes/api/checkout/+server.ts:10-59 | POST on the store: carts, orders and answer are those of the corrected checkout on the old state; the store stays valid given a fresh order id; `first` names the store's first cart |
| OrdersApi.OwnedBy | ecommerce/src/routes/api/orders/+server.ts:37 | `find({ userId })` keeps exactly the orders of that user and no others |
| OrdersApi.OwnedByCounts | ecommerce/src/routes/api/orders/+server.ts:37 | each of the user's orders is kept as often as stored; every other order is dropped |
| OrdersApi.Insert | ecommerce/src/routes/api/orders/+server.ts:37 | inserting into a newest-first list keeps it newest first and adds exactly that order |
| OrdersApi.NewestFirst | ecommerce/src/routes/api/orders/+server.ts:37 | `sort({ createdAt: -1 })` yields a newest-first permutation of its input |
| OrdersApi.ListOrders | ecommerce/src/routes/api/orders/+server.ts:11-48 | GET answers 200, 401 or 500, and a 200 lists only stored orders |
| OrdersApi.DeleteOrder | ecommerce/src/routes/api/orders/+server.ts:50-90 | DELETE answers 200, 400, 401, 404 or 500; only a 200 changes the orders, removing exactly one |
| OrdersApi.FindOwned | ecommerce/src/routes/api/orders/+server.ts:80 | the order matched has the requested id and the caller as owner; none is matched exactly when no such order exists |
| OrdersApi.RemovePreservesValid | ecommerce/src/routes/api/orders/+server.ts:80 | removing one order keeps order ids unique and every order valid |
| OrdersApi.Remove | ecommerce/src/routes/api/orders/+server.ts:50-90 | DELETE on the store: orders and answer are those of the orders DELETE on the old orders; the store stays valid |
| OrdersApi.ListIsOwnNewestFirst | ecommerce/src/routes/api/orders/+server.ts:15-42 | a refused token gets the ladder's 401; otherwise, barring a store error, GET lists exactly the caller's orders, each as often as stored, newest first |
| OrdersApi.ListFailureHasDetails | ecommerce/src/routes/api/orders/+server.ts:43-46 | a store error during GET is a 500 carrying the error's message |
| OrdersApi.DeleteRemovesOneOwnOrder | ecommerce/src/routes/api/orders/+server.ts:80-85 | a successful DELETE removed exactly one order, with the requested id and owned by the caller, keeping the rest in order |
| OrdersApi.CutLosesOnlyThatOrder | ecommerce/src/routes/api/orders/+server.ts:80-85 | removing the order at one position leaves every other order exactly as often as before |
| OrdersApi.NotOwnedIsNotFound | ecommerce/src/routes/api/orders/+server.ts:80-83 | an id naming no order of the caller, including another user's order, is 404 and deletes nothing |
| OrdersApi.DeleteFailureChangesNothing | ecommerce/src/routes/api/orders/+server.ts:75-78 | a missing or empty `orderId` is 400; any answer but 200 leaves the orders unchanged |
| OrdersApi.DeleteThenList | ecommerce/src/routes/api/orders/+server.ts:80-85 | with unique ids, after a successful DELETE the deleted order is no longer listed |
| LegacyOrdersApi.ListIsOwnInStoredOrder | ecommerce/routes/api/orders/+server.ts:42-48 | the legacy GET lists exactly the caller's orders in stored order, each as often as stored |
| LegacyOrdersApi.AgreesWithCurrentUpToOrder | ecommerce/routes/api/orders/+server.ts:11-61 | the legacy and current GET give the same status and, on success, the same orders as a multiset; every other answer is identical |
| LegacyOrdersApi.ListOrders | ecommerce/routes/api/orders/+server.ts:11-61 | the legacy GET answers 200, 401 or 500, and a 200 lists only stored orders |
| TokenLogin.LoginAnswers | ecommerce/src/routes/api/users/+server.ts:17-53 | 404 exactly when no user has the email, 401 exactly when the password does not match, 500 "secretOrPrivateKey must have a value" exactly when it matches but `JWT_SECRET` is unset or empty, otherwise 200 with a two-hour token for the user's id and the email |
| TokenLogin.TokenNamesTheUser | ecommerce/src/routes/api/users/+server.ts:35-53 | with `JWT_SECRET` set and a faithful verifier, the issued token verifies under that secret to the user's id and email; with it unset or empty, the login is 500 and issues no token |
| TokenLogin.FailuresHaveDetails | ecommerce/src/routes/api/users/+server.ts:46-54 | an unreadable body or a store error is a 500 carrying the error's message |
| TokenLogin.LoginSecret | ecommerce/src/routes/api/users/+server.ts:11 | `JWT_SECRET \|\| ""` is empty exactly when the variable is unset or empty, and otherwise is the verifying handlers' secret |
| TokenLogin.Login | ecommerce/src/routes/api/users/+server.ts:13-55 | POST answers 200, 401, 404 or 500; every 500 carries "Internal Server Error" and details; a token is issued only when `JWT_SECRET` is set |
| CookieLogin.SessionCookie | ecommerce/routes/api/users/login/+server.ts:30-36 | the cookie holds the token, is HTTP-only, site-wide, same-site strict, lasts two hours, and is secure exactly when `NODE_ENV` is "production" |
| CookieLogin.CookieLoginResult | ecommerce/routes/api/users/login/+server.ts:10-44 | POST answers 200, 401, 404 or 500, sets a cookie exactly on 200, and that cookie is HTTP-only and same-site strict |
| CookieLogin.LogIn | ecommerce/routes/api/users/login/+server.ts:10-44 | the answer is the cookie login's, and the jar gains the `authToken` cookie exactly when one is set |
| CookieLogin.CookieOnlyOnSuccess | ecommerce/routes/api/users/login/+server.ts:17-38 | a cookie is set exactly on 200; the body is only "Login successful"; the cookie holds a token for the matched user signed with the verifying handlers' secret |
| CookieLogin.SameStatusAsTokenLogin | ecommerce/routes/api/users/login/+server.ts:8-27 | both logins refuse the same requests with the same status and, with `JWT_SECRET` set, succeed together; with it unset or empty a cookie-login 200 is a body-login 500 "secretOrPrivateKey must have a value" |
| CookieLogin.CookieOpensProfileGate | ecommerce/routes/api/users/login/+server.ts:27-36 | under a faithful verifier, the cookie passes the cookie gate with the user's id and email as claims |
| Signup.VerificationToken | ecommerce/routes/api/users/signup/+server.ts:32 | the token is two hex digits per random byte and decodes back to those bytes |
| Signup.AppendPreservesValid | ecommerce/routes/api/users/signup/+server.ts:35-40 | saving a user with a fresh id and an unused email keeps the unique indexes |
| Signup.SignupResult | ecommerce/routes/api/users/signup/+server.ts:7-59 | POST answers 201, 400 or 500; a mail is sent exactly on 201; only a 201 changes the users, appending one unverified user |
| Signup.Register | ecommerce/routes/api/users/signup/+server.ts:7-59 | POST on the store: users, answer and mail are those of signup on the old users; the store stays valid given a fresh id |
| Signup.CreatedUser | ecommerce/routes/api/users/signup/+server.ts:28-48 | a 201 appends one unverified user with the email, the hashed password, the default avatar and a 64-digit hex token of the random bytes; the mail goes to that email with the token's link |
| Signup.NoUserNoMail | ecommerce/routes/api/users/signup/+server.ts:17-25 | a mail is sent exactly on 201; otherwise no user is added; missing fields are 400 and a taken email is 400 "Email is already in use" |
| Signup.SignupPreservesValid | ecommerce/routes/api/users/signup/+server.ts:21-40 | with a fresh id, signup keeps the unique indexes |
| ProfileApi.ProfileIsCallersView | ecommerce/routes/api/users/profile/+server.ts:16-46 | a refusal is the ladder's 401; a 200 answers the token's user without the password; an unknown id is 404 |
| ProfileApi.StoredUserIsFound | ecommerce/routes/api/users/profile/+server.ts:38-46 | under unique ids, a caller whose id is stored gets exactly that user's view |
| ProfileApi.GetProfile | ecommerce/routes/api/users/profile/+server.ts:11-52 | GET answers 200, 401, 404 or 500, and a 200 is a stored user's document without its password |
| SessionApi.SessionAgreesWithProfile | ecommerce/routes/api/users/session/+server.ts:20-41 | session and profile answer alike, except that a payload with a falsy `id` is 401 in profile and 404 in session |
| SessionApi.GetSession | ecommerce/routes/api/users/session/+server.ts:15-52 | GET answers 200, 401, 404 or 500, and a 200 is a stored user's document without its password |
| PictureApi.PictureRefusal | ecommerce/src/routes/api/users/profile-picture/+server.ts:24-52 | every refusal is 401; a missing token and a string payload get the ladder's messages; a failed verification is "Invalid or expired token" with the verifier's message as details in the current copy and the ladder's message in the older one; a missing id is "Invalid token payload (Missing user ID)." in both |
| PictureApi.RefusedOrNoFileChangesNothing | ecommerce/src/routes/api/users/profile-picture/+server.ts:24-60 | in both copies a ladder refusal is that refusal's 401 and writes no file and changes no user; a form without `profilePicture` is 400 "No file uploaded." with nothing changed |
| PictureApi.RepicturePreservesValid | ecommerce/src/routes/api/users/profile-picture/+server.ts:79-80 | changing one user's picture keeps the unique indexes |
| PictureApi.UploadResult | ecommerce/src/routes/api/users/profile-picture/+server.ts:19-95 | POST answers 200, 400, 401, 404 or 500; no user is added or removed and only `profilePicture` can change; files are only added |
| PictureApi.SetPicture | ecommerce/src/routes/api/users/profile-picture/+server.ts:19-95 | POST on the store: users, files and answer are those of the upload on the old state; the store stays valid |
| PictureApi.ServedPathIsWrittenFile | ecommerce/src/routes/api/users/profile-picture/+server.ts:69-79 | the stored URL is the written file as served from `static` |
| PictureApi.OnlyAllowedTypesAccepted | ecommerce/src/routes/api/users/profile-picture/+server.ts:57-66 | a 200 needs a PNG or JPEG file; another type is 400; a 400 writes nothing and changes no user |
| PictureApi.SuccessUpdatesOnlyCaller | ecommerce/src/routes/api/users/profile-picture/+server.ts:68-86 | a 200 writes `static/uploads/<id>.png`, sets only the caller's picture to `/uploads/<id>.png` and returns it |
| PictureApi.OrphanFileOnUnknownUser | ecommerce/src/routes/api/users/profile-picture/+server.ts:68-77 | an unknown user is 404 after the file was written, and the file stays |
| PictureApi.VariantsAgree | ecommerce/routes/api/users/profile-picture/+server.ts:41-43 | both copies change the same state with the same status and differ only on a failed verification |
| Shop.FilterByName | ecommerce/src/routes/shop/+page.ts:18-22 | a product is kept exactly when its lower-cased name contains the query |
| Shop.Load | ecommerce/src/routes/shop/+page.ts:10-25 | the page lists only given products, no more of them; without `search` it lists all with query ""; with one it reports the search lower-cased |
| Shop.LowerIdempotent | ecommerce/src/routes/shop/+page.ts:11 | lower-casing twice is lower-casing once |
| Shop.LoadIgnoresQueryCase | ecommerce/src/routes/shop/+page.ts:11 | the reported query is lower case, and the query's case does not change the page |
| Shop.EmptyQueryKeepsAll | ecommerce/src/routes/shop/+page.ts:18-22 | filtering with the empty query keeps every product |
| Shop.LoadIsFilter | ecommerce/src/routes/shop/+page.ts:10-25 | the page lists exactly the products whose lower-cased name contains the query |
| Shop.FilterAppend | ecommerce/src/routes/shop/+page.ts:19-21 | filtering distributes over concatenation, so kept products keep their order |
| Shop.FilterCounts | ecommerce/src/routes/shop/+page.ts:19-21 | each kept product occurs as often as in the input |
| Shop.FilterIdempotent | ecommerce/src/routes/shop/+page.ts:19-21 | searching the result again with the same query changes nothing |
| ClientAuth.AuthStores.constructor | ecommerce/lib/stores/auth.ts:7-13 | both stores start `null` and the browser is not authenticated |
| ClientAuth.AuthStores.SetAuthToken | ecommerce/lib/stores/auth.ts:16-18 | the token store takes the value; authenticated exactly when it is a non-empty string |
| ClientAuth.AuthStores.SetUser | ecommerce/lib/stores/auth.ts:21-23 | the user store takes the value |
| ClientAuth.AuthStores.FetchUserSession | ecommerce/lib/stores/auth.ts:27-47 | an ok answer marks the browser signed in and records the user; any other answer or a throw clears both stores; authenticated exactly after an ok answer |
| ClientAuth.AuthStores.LogoutUser | ecommerce/lib/stores/auth.ts:50-57 | the stores are cleared when the logout request resolves and left as they were when it rejects |
| ClientAuth.SessionUserAsWritten | ecommerce/lib/stores/auth.ts:37 | as written the recorded user has an id exactly when the JSON has an `id` key, and an email exactly when it has `email` |
| ClientAuth.SessionUser | ecommerce/lib/stores/auth.ts:37 | read from `_id`, the recorded user has an id exactly when the JSON has `_id`, and then that value |
| ClientAuth.SessionUserAsWrittenLacksId | ecommerce/lib/stores/auth.ts:37 | as written, the user recorded from a session answer never has an id |
| ClientAuth.SessionUserNamesTheUser | ecommerce/lib/stores/auth.ts:37 | read from `_id`, the recorded user has the session user's email and id |
| Scenarios.CookieLoginThenSession | ecommerce/routes/api/users/session/+server.ts:20-46 | cookie login, then the session handler with that cookie, answers the user's view; the corrected client records that user's email and id, the client as written the email and no id |
| Scenarios.BodyLoginTokenNeedsSecret | ecommerce/src/routes/api/users/+server.ts:11-53 | with `JWT_SECRET` unset or empty the body login issues no token and answers 500 "secretOrPrivateKey must have a value"; with it set, under a faithful verifier, its token opens the caller's order list |
| Scenarios.CartThenCheckout | ecommerce/src/routes/api/checkout/+server.ts:35-54 | after a cart POST, the corrected checkout places the order with the items' snapshot and total and empties the cart; as written it answers 500 and the cart keeps the items |
| Scenarios.SignupThenLogin | ecommerce/src/routes/api/users/+server.ts:21-53 | after signup, logging in with the same email and password succeeds and names the new user when `JWT_SECRET` is set, and is 500 at signing when it is not |

## Left out

- Connecting inside handlers: `connectToDatabase` is modelled on its own. A failed connection inside a handler is not modelled. That failure would be a 500, or, in the cart handlers where the call sits outside `try`, an uncaught error.
- Casting by Mongoose: an id that is not a valid ObjectId (a `CastError`, hence a 500) and request fields of the wrong JSON type are not modelled. Ids are strings and request fields are strings or absent.
- Missing login fields: both login handlers take `email` and `password` as present strings. What `findOne({ email: undefined })` and `bcrypt.compare(undefined, …)` would do is not modelled.
- `toLowerCase` and `includes` are modelled on ASCII letters only. Other Unicode case mappings are not.
- `path.join` normalisation of an id containing path separators is not modelled. The path is plain concatenation.
- The carts collection's natural order: which cart `findOne({})` returns when the checkout payload has no `id` is a parameter, `first`, that `Db.FirstCart` ties to the carts.
- Prices, quantities and totals are integers (minor units). Fractional prices and the floating-point rounding of the `reduce` over JavaScript numbers are not modelled; `CheckoutApi.TotalAppend` holds for integers, not for doubles.
- Token signatures and expiry are inside the `jwt.verify` and `jwt.sign` oracles. The cryptography is not modelled. The only library failures modelled outside them are the empty-secret guards of `sign` (`Gate.Sign`) and `verify` (`Gate.NeedsSecret`).
- Concurrency: each handler runs as one atomic step. Interleavings at its `await`s, such as two checkouts of one cart, are not modelled.
- Email delivery: `sendVerificationEmail` is the `Signup.Mail` value it would send. The transport, and the failure that `src/lib/email.ts` swallows, are not modelled.
- OrdersApi.NewestFirst: it fixes one order among orders with equal `createdAt`. The database does not promise one, so the contracts state only sortedness and the multiset.
- Uploaded file contents are not modelled, only the path written. Creating the upload directory at module load is not modelled either.
- Timestamps: `createdAt` of orders is a parameter. The users' and carts' timestamps are not modelled.
- CartApi.Replace: items are stored as given. The cart schema's required fields are always present in `Db.CartItem`, so a cart save failing validation is represented only by a store fault.
- CheckoutApi.Place: it uses the corrected order entries (see Findings). `CheckoutApi.Checkout` is the handler as written.
- ClientAuth.AuthStores.FetchUserSession: it reads the id from `_id` (see Findings). `ClientAuth.SessionUserAsWritten` is the line as written.
- ClientAuth.AuthStores.LogoutUser: the logout request is only its outcome, resolved or rejected. The logout handler is not part of this model.
- Logging, response headers, and JSON serialisation beyond the fields read are not modelled.
- The contact, products, reviews and product-page loaders, the logout handler and the cart store are not part of this model.

## Findings

| source | as written | input that shows it | evidently intended | confidence | as-written member | corrected member |
|---|---|---|---|---|---|---|
| ecommerce/src/routes/api/checkout/+server.ts:44-47 | each order entry is `{ productId: item.id, quantity }`: the cart subdocument's own id and no name or price, while the order schema (src/lib/db.ts:56-59) requires `name` and `price` | an authorised checkout with an address, a payment method and a cart with one item | each entry is a snapshot of the item: its product id, name, price, quantity and image | not executed; high, as it follows from the schema's required fields | CheckoutApi.Checkout | CheckoutApi.CorrectedCheckoutPlaces |
| ecommerce/lib/stores/auth.ts:37 | the user store gets `id: data.id`, but the session handler answers the user document, whose id is serialised as `_id`. No `toJSON` virtuals are set in src/lib/db.ts:31-39 | any successful session fetch | the user store holds the signed-in user's id | not executed; medium, as it relies on Mongoose's default JSON output | ClientAuth.SessionUserAsWrittenLacksId | ClientAuth.SessionUserNamesTheUser |
