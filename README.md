# OTP login and unique product slugs — a Dafny model

This project models the stateful core of a small Express/Mongoose e-commerce backend:

- **One-time-code login** (`src/controllers/otpController.js`). `sendOtp` upserts the user
  document for a phone number with a fresh six-digit code and an expiry ten minutes ahead,
  then sends the code by SMS. `verifyOtp` looks the phone up and checks the code and its
  expiry. On success it clears the pending code and returns a session token for the user's id.
  The user collection is the class `Otp.UserStore`, a `map` from phone number to `User`.
- **Unique slug allocation** (the `pre("save")` hook of `src/models/Product.js`). The hook
  probes `base`, `base-1`, `base-2`, … against the stored slugs and takes the first one that is free.
  `Slug.AllocateSlug` is that loop. `Slug.AllocatedSlug` is the function it is proved against.
- **The product collection** (`src/controllers/productController.js`). It covers creating a
  product (field validation, image URL, slug, insert), deleting one product (existence, then
  ownership), deleting all of the caller's products, and the two read-only queries. The
  collection is the class `Products.ProductStore`, a `map` from object id to `Product`.

Modules: `Common` (optional fields, object ids), `Decimal` (decimal rendering of integers,
as `toString` does for the code and the slug counter), `Otp`, `Slug`, `Products`.

Things the model takes as inputs:

- the draw of `Math.random` (a real in [0, 1));
- the current time `Date.now()` in milliseconds;
- whether the SMS was delivered;
- the `slugify` function;
- the URL the image host returned, or none when the upload failed;
- the authenticated caller's id.

A new document's `_id` is the store's `nextId` counter. The JWT is the opaque value
`Token(subject)`.

Behaviour of the code worth knowing, all of it modelled as the code has it:

- The code range is 100000..999999 (`Math.floor(100000 + Math.random() * 900000)`), so no
  code starts with `0` and every code is six digits (`Otp.GenerateOtp`).
- The expiry test is the strict `otpExpires < Date.now()`, so a code is still accepted at
  exactly its expiry instant (`Otp.IssuedCodeAccepted`).
- The code has no retry on a duplicate-slug write and no allocation-conflict error.
- A deleted product's slug can be allocated again, because the probe only looks at the
  products currently stored. A gap such as a deleted `widget-2` beside a stored `widget` and
  `widget-1` is refilled by the next `widget` (`Products.SlugReusableAfterDelete`).
- The required-field guard `!price` tests the raw field. In a multipart upload every field is
  a string, so a price of `"0"` passes the guard and is stored as 0
  (`Products.ZeroTextPriceAccepted`).

## Model

| member | source | states |
|---|---|---|
| `Decimal.NatToDecimal` | src/controllers/otpController.js:20 | an integer's decimal string is non-empty, all digits, and starts with `0` only for zero (no padding) |
| `Decimal.DecimalRoundTrip` | src/controllers/otpController.js:20 | reading the decimal string back gives the number |
| `Decimal.NatToDecimalInjective` | src/models/Product.js:32 | different numbers render as different strings |
| `Decimal.DecimalLength` | src/controllers/otpController.js:20 | a number in [10^(k-1), 10^k) renders with exactly k digits |
| `Otp.OtpNumber` | src/controllers/otpController.js:20 | the generated number lies in 100000..999999 for every draw in [0, 1) |
| `Otp.GenerateOtp` | src/controllers/otpController.js:20 | the code is exactly six digits with a non-zero first digit, and denotes the generated number |
| `Otp.DistinctDrawsDistinctCodes` | src/controllers/otpController.js:20 | draws giving different numbers give different code strings |
| `Otp.Issue` | src/controllers/otpController.js:28-32 | upsert: the phone's record gets the new code and expiry; an existing record keeps its id and name; a new one gets a fresh id and no name; every other phone is unchanged |
| `Otp.Verify` | src/controllers/otpController.js:59-81 | NotFound iff the phone has no record; InvalidOrExpired iff the stored code differs from the submitted one or the expiry is before now; both leave the store unchanged; success clears code and expiry of that record only and replies with its id, phone, name and a token for its id |
| `Otp.VerifyChecked` | src/controllers/otpController.js:67 | corrected verification: success only with a submitted code equal to the pending one and not expired; agrees with `Verify` whenever a code is submitted |
| `Otp.MissingCodeBypass` | src/controllers/otpController.js:55-73 | as written: after a successful login, a request without a code logs in again at any time |
| `Otp.CheckedNoLoginAfterUse` | src/controllers/otpController.js:67-73 | with the correction, nothing logs in after a code was used, with or without a submitted code |
| `Otp.WrongCodeRejected` | src/controllers/otpController.js:67-69 | right after issuing, any other submitted code is rejected and the store is unchanged |
| `Otp.IssuedCodeAccepted` | src/controllers/otpController.js:67-81 | the issued code is accepted up to and including `issue time + 600000` ms, yields a token for the record's id and clears the pending code |
| `Otp.ExpiredCodeRejected` | src/controllers/otpController.js:67-68 | after `issue time + 600000` ms the issued code is rejected and nothing changes |
| `Otp.ReissueInvalidatesFirst` | src/controllers/otpController.js:28-32 | a second send with a different number invalidates the first code |
| `Otp.CodeSingleUse` | src/controllers/otpController.js:71-73 | after a successful verification, any submitted code is rejected |
| `Otp.UserStore.SendOtp` | src/controllers/otpController.js:13-50 | the store becomes `Issue` of the old store with the generated code and `now + 600000`, whether or not the SMS is delivered; the reply is the phone or a delivery error; the store invariant (key = phone, unique ids, code and expiry present together, code six digits) is kept |
| `Otp.UserStore.VerifyOtp` | src/controllers/otpController.js:54-86 | reply and new store are exactly those of `Verify` on the old store; the store invariant is kept |
| `Slug.CandidateInjective` | src/models/Product.js:32 | the probed names `base`, `base-1`, `base-2`, … are pairwise distinct |
| `Slug.Probed` | src/models/Product.js:31-33 | the first k probed names form a set of exactly k names, holding candidate j iff j < k |
| `Slug.FirstFreeFrom` | src/models/Product.js:31-33 | the probe ends: a free candidate exists at a number no larger than the count of stored slugs, and all before it are taken |
| `Slug.AllocatedSlug` | src/models/Product.js:27-35 | the slug is not stored yet, is `base` when `base` is free, and is a candidate all of whose predecessors are taken |
| `Slug.FirstFreeIsLeast` | src/models/Product.js:31-33 | minimality: the allocated candidate is the only one whose predecessors are all taken and which is itself free |
| `Slug.AllocateSlug` | src/models/Product.js:27-35 | the probe loop ends with a slug not yet stored, `base` itself when free, and in general the value of `AllocatedSlug`: the first free name among `base`, `base-1`, `base-2`, … |
| `Slug.PreSaveSlug` | src/models/Product.js:24-37 | when `name` was not modified the slug is left as it was; otherwise it is the allocated, fresh slug of `slugify(name)` |
| `Slug.AllocateManyStep` | src/models/Product.js:27-35 | with `base` … `base-(m-1)` stored, the next save of that base takes `base-m` |
| `Slug.AllocateManyFrom` | src/models/Product.js:27-35 | with the first m candidates stored, n further saves take candidates m … m+n-1 in order |
| `Slug.AllocateSequence` | src/models/Product.js:27-35 | n saves of one base into a collection with none of its family yield `base`, `base-1`, …, `base-(n-1)` |
| `Slug.RedTShirtExample` | src/models/Product.js:27-35 | three "red-t-shirt" saves into an empty collection give `red-t-shirt`, `red-t-shirt-1`, `red-t-shirt-2` |
| `Products.FinalImageUrl` | src/controllers/productController.js:17-38 | the image URL is the hosted URL when a file or a non-empty `imageUrl` was sent, and the empty string otherwise |
| `Products.DigitTextPriceCast` | src/controllers/productController.js:43 | for a string reader that reads decimal digit strings denoting at most 2^53 as JavaScript's `Number` does (exactly), such a digit-string price is stored as the number it denotes and a numeric price unchanged |
| `Products.ZeroTextPriceAccepted` | src/controllers/productController.js:11 | the text price `"0"` is not falsy, so it passes the guard, and (with digit strings read as `Number` reads them) it is stored as the number 0 |
| `Products.MyProducts` | src/controllers/productController.js:109 | exactly the products whose creator is the caller, unchanged |
| `Products.OthersProducts` | src/controllers/productController.js:153 | exactly the products whose creator is not the caller, unchanged |
| `Products.ProductBySlug` | src/controllers/productController.js:86-93 | the id of the product with that slug, or none iff no stored product has it |
| `Products.CreatorPartition` | src/controllers/productController.js:153-157 | the caller's products and the others are disjoint, cover the collection, and their sizes add up to its size |
| `Products.DeleteAllLeavesNoneOfMine` | src/controllers/productController.js:153 | after removing the caller's products none of theirs remain and every other user's products are as before |
| `Products.InsertKeepsSlugsUnique` | src/models/Product.js:7 | storing a product with the allocated slug keeps slugs unique, and looking up that slug finds the new product |
| `Products.SlugReusableAfterDelete` | src/models/Product.js:31-35 | a deleted product's slug is free again; when it was `base-k` and `base` … `base-(k-1)` are still stored, the next product with base `base` gets it (for k = 0, the slug's own base gets it back) |
| `Products.ProductStore.CreateProduct` | src/controllers/productController.js:11-50 | 400 iff name, price or category is falsy (price falsy only when absent, `""` or the number 0); 500 iff an upload was needed and failed, or else iff the price does not cast to a number; all three leave the collection unchanged; otherwise exactly one product is added under a fresh id, owned by the caller, with the request's fields, the cast price, the image URL and the hook's fresh slug; slug uniqueness is kept |
| `Products.ProductStore.DeleteProduct` | src/controllers/productController.js:127-139 | 404 iff the id is unknown, 403 iff the caller is not its creator, both unchanged; otherwise exactly that product is removed |
| `Products.ProductStore.DeleteAllMyProducts` | src/controllers/productController.js:153-157 | the collection becomes the other users' products; the count equals the number of the caller's products, which is the number removed |

## Findings

| source | as written | input that shows it | evidently intended | confidence | as-written member | corrected member |
|---|---|---|---|---|---|---|
| src/controllers/otpController.js:67 | `user.otp !== otp \|\| user.otpExpires < Date.now()` lets a request through when neither a code was submitted nor one is pending (`undefined !== undefined` and `undefined < number` are both false) | `sendOtp(p)`; `verifyOtp(p, code)` succeeds and clears the code; then `verifyOtp` with `phone: p` and no `otp` field returns a token for p's user, at any later time | reject a request without a code, or for a user with no pending code, as "Invalid or expired OTP" | high (not executed) | `Otp.MissingCodeBypass` | `Otp.VerifyChecked` |

`Otp.UserStore.VerifyOtp` keeps the behaviour as written. `Otp.VerifyChecked` is proved equal
to it whenever a code is submitted. So `Otp.WrongCodeRejected`, `Otp.IssuedCodeAccepted`,
`Otp.ExpiredCodeRejected`, `Otp.ReissueInvalidatesFirst` and `Otp.CodeSingleUse` hold of
the corrected verification too.

## Left out

- SMS delivery through the Twilio client (otpController.js:6-9, 35-39): a network call. It is a
  `delivered` flag. Only its effect on the reply is modelled, and the stored code stays either way.
- `Math.random` and `Date.now`: they are parameters. The code is computed in real arithmetic.
  IEEE double rounding of `100000 + Math.random() * 900000` is not modelled.
- JWT signing by `generateToken`: a foreign call. It is the opaque value `Token(user id)`.
  `src/utils/generateToken.js` is not part of this model.
- `slugify` normalisation (Product.js:27): library code. It is a function parameter, and the
  allocator works from whatever base token it returns.
- Image uploads and base64 data-URI building (productController.js:20-38): foreign I/O. Only
  the returned URL, or the failure of the upload, is modelled.
- `getProducts` (productController.js:71): with `populate` and response shaping removed, it
  returns the whole collection, so it has no member of its own.
- `populate` joins, HTTP status and JSON shaping, and the order of query results: queries
  return maps, which have no order.
- Database failures, Mongoose validation errors on save other than the price cast, and the `CastError` of an
  invalid id in `deleteProduct`. These are 500 replies that the in-memory store cannot produce.
- A duplicate-key error on the unique `slug` index (Product.js:7). Under sequential execution
  the allocated slug is always fresh (`Products.InsertKeepsSlugsUnique`), so it cannot happen.
- Concurrency: the check-then-write race in the probe loop, and racing `sendOtp` calls. Every
  operation runs sequentially. The code has no duplicate-key retry and the model adds none.
- Requests whose `phone` is missing, and `otp` values that are not strings (a JSON number).
  The model's phone is always a string. A non-string code always fails `!==` against a stored
  string, which is the same as submitting a wrong code.
- The slug hook on an update of an existing product. `updateProduct` is not defined in the
  controller. A renamed document could collide with its own stored slug; only the create path
  is modelled.
- Products.ProductStore.CreateProduct: `name` and `category` are taken as strings. A JSON number or
  boolean in those fields is cast by Mongoose, and that cast is not modelled. The reading of a
  numeric string (`Number("…")`) is a parameter, constrained only on plain decimal digit strings
  denoting at most 2^53; its reading of other strings (signs, decimals, exponents, whitespace)
  is not modelled. Prices are reals, so the double rounding of a numeric price is not modelled.
- Products.DigitTextPriceCast: states the stored price only for digit strings denoting at most
  2^53. `Number` rounds longer ones to the nearest double (`"9007199254740993"` becomes
  9007199254740992), and that rounding is not modelled.
- Logging of the Twilio secrets (otpController.js:15-17) and the Mongoose `timestamps` option.
