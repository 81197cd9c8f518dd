# Balance settlement of a gift-card sales backend, in Dafny

This project models the part of the backend that moves money. There is one
administrator pool (`AdminBalance`, holding `saldo` and the display copy
`currentSaldo`), a set of accounts (`User`), and an append-only ledger of
sales (`Sale`). Accounts have one of these roles:

- `cliente`: holds and spends its own balance.
- `admin`: holds and spends its own balance.
- `vendedor` and `master`: intermediaries whose balance mirrors the pool.

Three request handlers change this store:

- `createAccount` registers an account.
- `updateAdminBalance` tops up the pool.
- `createSale` settles a sale.

Each handler is a pure function from a committed store to either the next
committed store or an error. An error stands for the session returning
before `commitTransaction`, so nothing it wrote persists. This
commit-or-abort reading is how the model is built, not a property it
proves: `Ledger.Step` keeps the old store on an error by definition, and
the sale's final `save` (`Handlers.RecordSale`) is a plain helper whose
facts are carried by the handler contracts below.

The User schema enters the model twice:

- as the check `save` performs: required strings, the role enum, `min: 100`
  and the asynchronous balance validator;
- as the unique, trimmed and lower-cased handle and e-mail.

The route validators for registration and for the top-up amount are pure
predicates over the request body. Money is integer cents, so 100.00 is
`10000`.

On top of the single-step contracts, `Ledger` runs any sequence of
requests and proves facts about the whole run:

- The pool's balance equals its start, plus the top-ups, minus the price of
  every paid sale recorded.
- The ledger only grows.
- Accounts are never removed and keep their identity.
- Intermediaries keep mirroring the pool, and handles and e-mails stay
  unique.
- Without negative top-ups, no balance goes negative.
- Every cliente keeps at least 100.00, unless a sale is paid from a
  caller-asserted account. `SaleFacts.AssertedSaleBreaksFloor` shows that
  exception on a concrete store.

Files, each one module:

- `store.dfy`: the records, error codes and bulk updates.
- `text.dfy`: trim, lowercase and slug.
- `user_model.dfy`: the User schema.
- `handlers.dfy`: the three handlers.
- `invariants.dfy`: the record invariants.
- `router.dfy`: the route validators and the numeric check.
- `registration_facts.dfy`, `topup_facts.dfy`, `sale_facts.dfy`: the facts about each handler.
- `ledger.dfy`: runs of requests.

## Model

| member | source | states |
|---|---|---|
| Store.OverwriteSaldo | src/handlers/index.ts:362-366 | A bulk `$set` gives every account whose role matches the new value. Every other account stays as it was. No account is added or removed, and only balances change. |
| Store.IncrementSaldo | src/handlers/index.ts:92-95 | A bulk `$inc` adds the amount to every matching account and nothing to the others. Only balances change. |
| Store.SetSaldoOf | src/handlers/index.ts:391-395 | `updateOne` by id sets that account's balance if it exists. Every other account is unchanged. A missing id matches nothing. |
| Text.Lowercase | src/models/User.ts:18 | The `lowercase` setter leaves no upper-case letter: each A-Z becomes its own lower-case letter, and every other character stays in place. |
| Text.Trim | src/models/User.ts:17 | The `trim` setter returns a slice of the input: what it cuts from either end is white space, and what it keeps starts and ends with a non-space. |
| Text.Slug | src/handlers/index.ts:23 | The slugged handle holds only lower-case letters and digits. It is never longer than the request. |
| Text.CanonIdempotent | src/models/User.ts:14-32 | Storing an already stored handle or e-mail changes nothing. |
| Text.SlugIsCanonical | src/handlers/index.ts:23-24 | A slug is already in stored form, so the duplicate lookup compares it exactly as stored. |
| Text.SlugIdempotent | src/handlers/index.ts:23 | Slugging a slug changes nothing. |
| Text.SlugAppend | src/handlers/index.ts:23 | The slug works character by character: the slug of a concatenation is the concatenation of the slugs. |
| Text.SlugKeepsAlnum | src/handlers/index.ts:23 | A single letter or digit survives the slug, lower-cased. |
| Text.SlugDropsOther | src/handlers/index.ts:23 | A single character that is not a letter or digit is dropped by the slug. |
| UserModel.ValidDocumentFacts | src/models/User.ts:38-59 | Every document `save` accepts has a role in the enum, never `master`, and at least 100.00. An admin or vendedor document holds exactly the pool's balance, so a pool must exist. |
| UserModel.ClienteDocumentAccepted | src/models/User.ts:48-50 | Conversely, a cliente document with non-empty strings and at least 100.00 is accepted with or without a pool. |
| UserModel.CanonHandleIsSlug | src/models/User.ts:14-20 | The stored handle is exactly the slug of the requested one. |
| UserModel.AddKeepsUnique | src/models/User.ts:14-32 | Adding an account whose handle and e-mail are both unused keeps both unique. |
| UserModel.SaldoChangesKeepUnique | src/models/User.ts:14-32 | Changing only balances keeps handles and e-mails unique. |
| Handlers.InitialSaldo | src/handlers/index.ts:33-47 | A cliente or admin starts with the requested balance, which must be present and at least 100.00. A vendedor or master copies the pool's balance and fails without a pool. |
| Handlers.AssignRango | src/handlers/index.ts:49-57 | Admin, vendedor and master get `ultrap`. A cliente keeps its chosen tier exactly when that tier is diamante, oro or bronce. |
| Handlers.RegisterPolicy | src/handlers/index.ts:13-57 | The policy accepts exactly when the e-mail and handle are unused, the role's starting balance can be set and its tier assigned. A used e-mail fails first and a used handle second. An accepted document carries the stored forms of the e-mail, handle and name, and neither the e-mail nor the handle is in use. Its balance and tier follow the role rules. |
| Handlers.CreateAccount | src/handlers/index.ts:59-67 | Registration succeeds exactly when the policy accepts, the built document passes the schema and the id is fresh. It then adds exactly one account under that id. That account passes the schema and reuses no e-mail or handle. Everything else stays as it was, and a policy error is returned unchanged. |
| Handlers.UpdateAdminBalance | src/handlers/index.ts:78-95 | The top-up fails exactly when there is no pool. Otherwise both `saldo` and `currentSaldo` become the old `saldo` plus the amount. Each vendedor and master gains the amount, every other account is unchanged, and the ledger is untouched. |
| Handlers.DebitPool | src/handlers/index.ts:281-301 | The pool debit succeeds exactly when the pool covers the price and the sale record passes the schema; a pool below the price is refused with the pool-funds error. On success the pool drops by the price, only balances change, every account of a mirrored role holds the amount left in the pool, every other account is untouched, and exactly this sale is appended. |
| Handlers.CreateSale | src/handlers/index.ts:232-507 | Without a pool the result is an error. An authenticated caller with no account is refused with the user-not-found error. A commit appends exactly one sale built from the request, keeps the ledger prefix and `currentSaldo`, and changes only balances. A paid sale drops the pool by the price, never below 0, and every intermediary ends at the new pool balance. The sale has no payer only when there is neither a caller nor a `user`, and then nothing else changes. |
| Router.Register | src/router.ts:12-42 | A body any validator rejects never reaches the handler, and a body every validator accepts gets exactly what `createAccount` returns. An accepted registration has a password of at least 8 characters, a role among admin, vendedor and cliente, and a stored balance of at least 100.00. |
| Router.MasterRejectedByRoute | src/router.ts:26-30 | A `master` registration stops at the route. |
| Router.VendedorRequestedSaldoChecked | src/router.ts:35-37 | A vendedor asking for less than 100.00 is refused at the route, even though the handler would ignore the amount and copy the pool's. |
| Router.ClienteSaldoRequired | src/router.ts:32-34 | A cliente body without a balance, or with 0, is refused. |
| Router.ScanNumeric | src/router.ts:59 | One pass over the top-up amount decides exactly the pattern optional sign, optional digits and '.', then at least one digit. |
| RegistrationFacts.DuplicateEmailRejected | src/handlers/index.ts:17-21 | A registered e-mail is refused and no account is added. |
| RegistrationFacts.DuplicateHandleRejected | src/handlers/index.ts:23-28 | A registered handle is refused and no account is added. |
| RegistrationFacts.OwnBalanceRegistration | src/handlers/index.ts:33-38 | A cliente or admin with a missing or under-100.00 balance is refused. On success, the stored balance equals the requested one. |
| RegistrationFacts.IntermediaryRegistration | src/handlers/index.ts:39-46 | A vendedor or master without a pool is refused. On success, it holds the pool's balance, and the requested balance makes no difference. |
| RegistrationFacts.RangoAssignment | src/handlers/index.ts:49-57 | A cliente with a tier outside the three ranks is refused. Every stored account has its chosen tier if it is a cliente, and `ultrap` otherwise. |
| RegistrationFacts.EmptySlugNeverRegisters | src/handlers/index.ts:23-67 | A requested handle with no letter or digit slugs to the empty string, so registration always fails, and fails with the schema's validation error once the e-mail, handle, balance and tier checks pass. |
| RegistrationFacts.MasterNeverRegisters | src/models/User.ts:38-42 | A master registration always fails. With a pool, it passes the handler's checks and is refused only by the schema. |
| RegistrationFacts.AdminRegistrationMatchesPool | src/models/User.ts:51-54 | An admin is created only when the requested balance equals the pool's. |
| RegistrationFacts.AdminRegistrationSucceeds | src/handlers/index.ts:13-67 | An admin with an unused e-mail and handle, a pool of at least 100.00, a requested balance equal to the pool's, non-empty stored strings and a fresh id is stored as the normalised request with tier `ultrap`. |
| RegistrationFacts.ClienteRegistrationSucceeds | src/handlers/index.ts:13-67 | A cliente with an unused e-mail and handle, at least 100.00, a client rank, non-empty stored strings and a fresh id is stored exactly as the normalised request. |
| RegistrationFacts.VendedorRegistrationSucceeds | src/handlers/index.ts:39-67 | A vendedor with an unused identity and a pool holding at least 100.00 is stored with the pool's balance, whatever it asked for. |
| RegistrationFacts.CreateAccountKeepsConsistent | src/handlers/index.ts:59-67 | A new account keeps intermediaries mirroring the pool, and handles and e-mails unique. |
| RegistrationFacts.CreateAccountKeepsBounds | src/models/User.ts:43-45 | A new account keeps every balance non-negative and every cliente at or above 100.00. |
| TopUpFacts.TopUpsCompose | src/handlers/index.ts:78-95 | Two top-ups in a row equal one top-up of their sum. |
| TopUpFacts.TopUpUndone | src/handlers/index.ts:84-95 | A top-up followed by its opposite restores the store, provided `currentSaldo` was in step. |
| TopUpFacts.TopUpKeepsConsistent | src/handlers/index.ts:86-95 | If intermediaries mirrored the pool before a top-up, they still do afterwards. |
| TopUpFacts.TopUpKeepsBounds | src/handlers/index.ts:92-95 | A non-negative top-up keeps balances non-negative. Clientes are untouched. |
| SaleFacts.AuthenticatedOwnBalanceErrors | src/handlers/index.ts:263-284 | For a cliente or admin payer, the errors come in order: payer funds, then the schema on the debited account, then pool funds. |
| SaleFacts.AuthenticatedOwnBalanceSale | src/handlers/index.ts:263-342 | For a cliente or admin payer, the sale commits exactly when both balances cover the price and the records pass the schema. Then the payer and the pool each drop by the price, vendedor and master accounts take the new pool balance, everyone else is untouched, and one sale is appended. |
| SaleFacts.AuthenticatedPayerMeetsSchema | src/handlers/index.ts:277-278 | After paying, an authenticated cliente keeps at least 100.00. An authenticated admin ends holding the pool's pre-sale balance. |
| SaleFacts.AuthenticatedOtherRoleSale | src/handlers/index.ts:343-367 | For a payer of any other role, only the pool is debited. Admin, vendedor and master accounts all take the new pool balance, and one sale is appended. |
| SaleFacts.AssertedOwnBalanceSale | src/handlers/index.ts:378-456 | For an asserted cliente or admin, the checks use the asserted balance. The stored account with that id ends at the asserted balance minus the price, and the pool and intermediaries are settled as usual. |
| SaleFacts.AssertedOtherRoleSale | src/handlers/index.ts:457-478 | For an asserted account of any other role, only the pool is debited. Admin, vendedor and master accounts take the new pool balance. |
| SaleFacts.AnonymousSaleOnlyRecords | src/handlers/index.ts:481-492 | With no caller and no `user`, the sale is recorded with no payer and no balance changes. |
| SaleFacts.CreateSaleKeepsConsistent | src/handlers/index.ts:297-301 | Settling a sale keeps intermediaries mirroring the pool, and handles and e-mails unique. |
| SaleFacts.CreateSaleKeepsNonNegative | src/handlers/index.ts:264-284 | Every debit is guarded by a funds check, so no balance goes negative. |
| SaleFacts.CreateSaleKeepsFloor | src/handlers/index.ts:263-302 | A sale by an authenticated caller, or one with no payer, keeps every cliente at or above 100.00. |
| SaleFacts.AssertedSaleBreaksFloor | src/handlers/index.ts:378-395 | A concrete store shows the exception. A cliente holds 200.00, the caller asserts 100.00, and a 50.00 sale leaves the stored cliente with 50.00. |
| Ledger.StepGrows | src/handlers/index.ts:481-494 | One request keeps the ledger's prefix and every existing account's identity. |
| Ledger.StepConservesPool | src/handlers/index.ts:281-294 | One request moves the pool by its top-up minus the price of the paid sale it recorded, if any. |
| Ledger.RunGrows | src/handlers/index.ts:481-494 | Over any run, the ledger only grows, and accounts are never removed or re-identified. |
| Ledger.RunConservesPool | src/handlers/index.ts:232-507 | After any run, the pool holds its start, plus all top-ups, minus the prices of the paid sales recorded. |
| Ledger.StepKeepsConsistent | src/handlers/index.ts:297-301 | Every request keeps intermediaries mirroring the pool, and identities unique. |
| Ledger.RunKeepsConsistent | src/handlers/index.ts:232-507 | Every reachable store keeps intermediaries mirroring the pool, and identities unique. |
| Ledger.StepKeepsNonNegative | src/handlers/index.ts:264-284 | A request that is not a negative top-up keeps all balances non-negative. |
| Ledger.RunKeepsNonNegative | src/handlers/index.ts:232-507 | Without negative top-ups, no balance ever goes negative. |
| Ledger.StepKeepsFloor | src/models/User.ts:48-50 | A request other than an asserted-account sale keeps every cliente at or above 100.00. |
| Ledger.RunKeepsFloor | src/models/User.ts:48-50 | Without asserted-account sales, every cliente stays at or above 100.00 throughout. |

## Left out

- HTTP plumbing is not modelled: Express requests and responses, status codes, messages and the `handleInputErrors` middleware. Each handler is one atomic step returning a result or an error code.
- Concurrency and isolation are not modelled. The pool is read outside the sale's session, and `updateAdminBalance` is not transactional. Both are modelled as atomic steps.
- An early `return` inside the sale session leaves the transaction uncommitted. It is modelled as an abort.
- Floating-point money is not modelled. `parseFloat(x.toFixed(2))` is the identity on integer cents, so the `isNaN` guards are dead branches and are dropped.
- Router.ScanNumeric: the conversion of the numeric top-up string to an amount is not modelled. `UpdateAdminBalance` takes the amount in cents directly.
- Router.Register: does not check the e-mail syntax of the `isEmail` validator, which is a foreign library's grammar.
- Router.SaldoAccepted: treats `saldo` as a number. JavaScript's truthiness and `<` on a string body value (such as `"0"`) are not modelled.
- Text.Slug: approximates the `slug` package with ASCII only: letters and digits are kept and lowercased, and everything else is dropped. The package itself is not part of this model. Its character map writes some symbols as words (`&` as `and`, `|` as `or`, `<` as `less`, `>` as `greater`, `$` as `dollar`, `%` as `percent`), transliterates non-ASCII letters, and depending on version and mode may keep some punctuation; on such input the stored handle, and so the duplicate-handle check, can differ from the model's. Recent releases of the package also fall back, when the slug would be empty, to slugging the base64 form of the input, even with `''` as the replacement; with that fallback a handle such as `"!!!"` or `" "` is stored under a base64-derived slug and the account is created, whereas the model refuses it with the validation error (`RegistrationFacts.EmptySlugNeverRegisters`).
- Text.Lowercase: folds only ASCII `A`-`Z`. JavaScript's `toLowerCase` folds every Unicode upper-case letter and can change the length (`"İ"` becomes two code points). Duplicate-e-mail checks on non-ASCII input can therefore differ: with `élan@x.com` stored, a request for `Élan@x.com` is refused by the code but accepted by the model.
- Text.Trim: cuts the white space and line terminators JavaScript's `trim` removes, listed by code point in `Text.IsSpace`; strings are sequences of characters, so UTF-16 surrogate pairs are not modelled.
- The pool lookup is not modelled. The code uses both `findOne()` and the newest record by `created_at`; the model has a single pool.
- Password hashing (`hashPassword`, bcrypt) is not modelled. Only the route's length check on the plain password is.
- Read-only and unrelated handlers are not modelled: `login`, `getUser`, `getUserCounts`, `getAdminBalance`, the sale queries, and the product catalogue.
- `rango` and `currentSaldo` are not declared in the User and AdminBalance schemas. Strict mode would discard them on write. The model keeps them as the handlers assign them.
- The Sale record's `user` snapshot has no `role` path, so the model's snapshot holds only id, handle, name and e-mail.
- The schema default balance of 100.00 is never stored, because registration always supplies a balance.
- The pool record's own required fields (`api_key`, `api_secret`) are taken to be present.
- A sale never updates the pool's `currentSaldo`; only a top-up sets it.
- The payer and the pool are both debited the same `totalPrice`; no tiered price is computed.
- No sequence generator, manual balance adjustment or token consumption appears in the handlers, and `Counter.ts` and `Transaction.ts` are never written, so the model has none of them.
- The caller-asserted `user` in a sale body is trusted as sent and never re-read from the store; `SaleFacts.AssertedSaleBreaksFloor` shows the consequence.
