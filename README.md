# Credit ledger and email verification of the users table

This project models, in Dafny, the account core of a short-video SaaS backend:

- the Convex `users` table with its three secondary indexes (email, verification token, Polar customer id), its queries, and its mutations: `createUser`, `addCredits`, `deductCredits`, `updateUserVerification`, `updatePolarCustomerId`, `updateVerificationToken`;
- the verification-token lifecycle: `sendVerificationEmail` builds a token from two UUIDs and stores it on the user found by email before the mail goes out; `verifyEmailToken` looks the token up, marks the user verified and clears the token;
- the `onOrderPaid` webhook of the Polar billing plugin, with its product table (Starter 60, Creator 160 and Pro 360 credits). It skips unpaid orders and unknown products, grants through `addCredits`, and catches every error.

Layout:

- `wrappers.dfy`: Option, Result and Outcome.
- `user_table.dfy` (module `UserTable`): the table as a value `Db(users, nextId)`. Each query is a function, and each mutation is a function from the table before to the reply and the table after. Convex runs a mutation as one transaction, so this is one atomic step. This module also holds the lemmas about the ledger.
- `users.dfy` (module `Users`): `UserStore`, a class whose `users` map and `nextId` counter the mutation methods update in place. Each method is proved to take the store where the matching `UserTable` function says.
- `email.dfy` (module `Email`): token construction, the issue and consume transitions with their lemmas, and the two entry points as methods over a `UserStore`.
- `billing.dfy` (module `Billing`): the product table, the handler's decision, the handler as a transition, its lemmas, and `OnOrderPaid` as a method over a `UserStore`.

Modelling choices:

- Document ids are natural numbers issued in increasing order. `.withIndex(...).first()` returns the oldest match, because Convex orders equal index keys by creation time. The model therefore returns the smallest matching id. The schema makes no field unique, so several users may share an email, a token or a customer id. The lookups pick the oldest of them.
- `ctx.db.patch` on an id that holds no document throws. `updateUserVerification`, `updatePolarCustomerId` and `updateVerificationToken` patch without reading first, so in the model they fail with `NonexistentDocument` and change nothing.
- In a patch, `verifyToken: undefined` removes the field. The model writes this as `None`.
- `randomUUID` is replaced by two UUID strings passed in. The mail service is replaced by its reply (`Delivered(data)` or `Rejected(error)`), passed in and used only after the token is stored.
- The product-id environment variables are a parameter (`ProductEnv`). A computed key from an unset variable is the property name `"undefined"`. When two ids coincide, the entry written later in the literal wins.
- In `onOrderPaid`, a missing `customer.externalId` reaches `addCredits` as a missing `userId: v.string()` argument. Argument validation rejects it, and the handler catches the error (`MissingUserId`).

Where the code differs from the intended design, the model follows the code:

- `createUser` has no duplicate-email check (`CreateUserKeepsOlderEmailMatch`).
- No processed-event record exists, so a redelivered paid event grants again (`ReplayGrantsTwice`, `StarterRedeliveryExample`).
- Tokens carry no expiry time.
- A non-negative balance is guaranteed only by `deductCredits`. `createUser` and `addCredits` accept any number.
- The webhook grants to the user found by Polar customer id. It does not use the event's external account id.

## Model

| member | source | states |
|---|---|---|
| UserTable.FirstMatch | convex/users.ts:16-19 | returns the smallest id in the range whose record matches the index key; None exactly when no record in the range matches |
| UserTable.Find | convex/schema.ts:61-63 | `.first()` on an index returns the oldest matching document as stored, and null if and only if no document matches |
| UserTable.GetUser | convex/users.ts:5-10 | returns the document stored under the id, and null if and only if there is none |
| UserTable.GetUserByEmail | convex/users.ts:13-21 | returns a document with that email and no older one has it; null if and only if no document has that email |
| UserTable.GetUserByPolarCustomerId | convex/users.ts:24-32 | returns a document carrying that customer id and no older one carries it; null if and only if none carries it |
| UserTable.GetUserByVerifyToken | convex/users.ts:174-182 | returns a document holding that token and no older one holds it; null if and only if none holds it |
| UserTable.GetUserCredits | convex/users.ts:165-171 | returns the document's balance, and null if and only if the id is absent |
| UserTable.NewRecord | convex/users.ts:116-126 | the inserted record has `emailVerified = false` and `credits` = the given credits, else 10; every other field is copied from the arguments |
| UserTable.CreateUser | convex/users.ts:104-128 | inserts the new record under an id not in use; every existing record is unchanged |
| UserTable.CreateUserKeepsOlderEmailMatch | convex/users.ts:115-126 | creating a user whose email already exists still inserts, and the email lookup keeps returning the older record |
| UserTable.AddCredits | convex/users.ts:41-69 | fails with "User not found with polarCustomerId: …" and changes nothing if and only if no user carries the customer id; otherwise the oldest such user's balance becomes old + credits, the reply has `newCredits` = that sum and `addedCredits` = credits, and no other field or record changes because the customer id is rewritten with its own value |
| UserTable.DeductCredits | convex/users.ts:78-100 | a missing id fails with "User not found" and a balance below the amount fails with "Insufficient credits", both changing nothing; it succeeds if and only if the balance covers the amount, and then only that balance changes, to old − amount ≥ 0 |
| UserTable.UpdateUserVerification | convex/users.ts:138-145 | changes exactly `isVerified`, `emailVerified` and `verifyToken` of that record; fails and changes nothing if and only if the id is absent |
| UserTable.UpdatePolarCustomerId | convex/users.ts:155-160 | changes exactly `polarCustomerId` of that record; fails and changes nothing if and only if the id is absent |
| UserTable.UpdateVerificationToken | convex/users.ts:190-195 | changes exactly `verifyToken` of that record, overwriting any earlier token; fails and changes nothing if and only if the id is absent |
| UserTable.PatchKeepsLookup | convex/users.ts:58-61 | a patch that leaves an index field alone leaves that index's lookup result unchanged |
| UserTable.LedgerBalanceNonNegative | convex/users.ts:85-92 | with a non-negative start and non-negative grants, no sequence of guarded deducts makes the balance negative |
| UserTable.LedgerStepBalance | convex/users.ts:56-61 | one grant or deduct changes only the resolved account's balance, by the reference amount, and the customer id still resolves to that account |
| UserTable.ApplyLedgerBalance | convex/users.ts:56-92 | after any run of `addCredits` and `deductCredits` on one account, its balance equals the start plus the grants minus the accepted deducts; refused deducts count zero; no other record and no other field changes |
| Users.UserStore.CreateUser | convex/users.ts:115-126 | the in-place insert leaves the store at `UserTable.CreateUser` of the old store |
| Users.UserStore.AddCredits | convex/users.ts:41-69 | the in-place read-then-patch gives the reply and new store of `UserTable.AddCredits` |
| Users.UserStore.DeductCredits | convex/users.ts:78-100 | the in-place read-check-patch gives the reply and new store of `UserTable.DeductCredits` |
| Users.UserStore.UpdateUserVerification | convex/users.ts:138-145 | the in-place patch matches `UserTable.UpdateUserVerification` |
| Users.UserStore.UpdatePolarCustomerId | convex/users.ts:155-160 | the in-place patch matches `UserTable.UpdatePolarCustomerId` |
| Users.UserStore.UpdateVerificationToken | convex/users.ts:190-195 | the in-place patch matches `UserTable.UpdateVerificationToken` |
| Email.StripHyphens | lib/email.ts:21 | `replace(/-/g, "")`: the result contains no '-' and is no longer than the input |
| Email.StripHyphensAppend | lib/email.ts:21 | stripping distributes over concatenation |
| Email.StripHyphensHyphenFree | lib/email.ts:21 | a string without '-' is returned unchanged |
| Email.MakeToken | lib/email.ts:21 | the token contains no '-' and is the first UUID stripped followed by the second UUID stripped |
| Email.UuidStripped | lib/email.ts:21 | a canonical UUID loses exactly its four hyphens, leaving its five hex groups: 32 lower-case hex digits |
| Email.TokenShape | lib/email.ts:21 | for two canonical UUIDs the token is 64 lower-case hex digits |
| Email.IssueToken | lib/email.ts:15-58 | an empty email fails with "Email is null" and an unknown email fails with "User not found with email: …", both changing nothing; otherwise only the user found by email changes, its token is overwritten with the new one, and it becomes Pending; a send failure returns "Failed to send verification email" but leaves the token stored |
| Email.ConsumeToken | lib/email.ts:61-82 | fails with "Invalid or expired verification token" and changes nothing if and only if no user holds the token; otherwise returns the holder as read, sets `isVerified` and `emailVerified`, clears its token (state Verified), and changes nothing else |
| Email.ConsumeIsSingleUse | lib/email.ts:63-77 | when at most one user holds a token, a second consume of it fails with "Invalid or expired verification token" |
| Email.ConsumeSharedTokenTwice | lib/email.ts:63-77 | the schema does not make tokens unique: if two users hold the same token, the second consume succeeds on the other one |
| Email.IssueThenConsume | lib/email.ts:21-34 | issuing a token no user holds and then consuming it verifies the user found by email, whatever the mail service answered; consuming the same token again fails |
| Email.ReissueRevokesEarlierToken | lib/email.ts:31-34 | after a re-issue, an earlier different token no longer leads to this user |
| Email.ReissueThenConsumeEarlierFails | lib/email.ts:31-34 | if only this user held the earlier token, consuming it after a re-issue fails and changes nothing |
| Email.SendVerificationEmail | lib/email.ts:15-58 | the step-by-step method (lookup, patch, then send) gives the reply and new store of `IssueToken` |
| Email.VerifyEmailToken | lib/email.ts:61-82 | the step-by-step method (lookup, then patch) gives the reply and new store of `ConsumeToken` |
| Billing.ProductConfigs | lib/auth.ts:13-29 | the table's keys are the three product ids; Pro always maps to its pack, Creator and Starter when their ids are not overridden by a later key; every entry grants 60, 160 or 360 |
| Billing.ProductCredits | lib/auth.ts:13-29 | with distinct product ids: Starter 60, Creator 160, Pro 360, with their slugs |
| Billing.Decide | lib/auth.ts:74-91 | skip if and only if not paid or status ≠ "paid"; unknown product if and only if paid and the id is not in the table; otherwise grant the table amount to the event's external id and customer id |
| Billing.ReconcileOrderPaid | lib/auth.ts:69-97 | unpaid and unknown-product events change nothing; every path but a credit changes nothing; a credit happens if and only if the order is paid, the product is known, the external id is present and some user carries the customer id, and then only that user's balance rises, by exactly the table amount |
| Billing.UnknownCustomerCaught | lib/auth.ts:86-96 | a grant for a customer id no user carries ends in a caught "User not found with polarCustomerId" error with no change |
| Billing.ReplayGrantsTwice | lib/auth.ts:69-97 | no dedupe: handling the same paid event twice credits the same user twice the table amount |
| Billing.StarterRedeliveryExample | lib/auth.ts:69-97 | new account 10, Starter purchase 70, 5 spent 65, redelivered event 125 |
| Billing.SessionExpiresIn | lib/auth.ts:114 | the session lifetime 60·60·24·30 is 2 592 000 seconds |
| Billing.OnOrderPaid | lib/auth.ts:69-97 | the handler method, which calls `UserStore.AddCredits` and returns normally on every path, gives the outcome and new store of `ReconcileOrderPaid` |

## Left out

- Concurrency between mutations: each mutation is one atomic step, as Convex runs mutations transactionally. Lost-update races are not modelled.
- The Convex HTTP and React clients: the entry points call the store directly.
- UUID randomness: the two UUIDs are parameters. Only the concatenate-and-strip step is modelled.
- Sending mail (Resend), the rendered message, the verification URL and the base URL: the send is reduced to its reply.
- `console.log` and `console.error`: the handler's outcome value only records which branch ran.
- The BetterAuth and Polar plugin configuration, checkout and portal wiring, webhook signature checking and Google sign-in (lib/auth.ts:31-68, 98-117), including BetterAuth's own verification mail: foreign library code. Only `session.expiresIn` is kept. `updateAge` has the same value and is not modelled separately.
- The other tables of convex/schema.ts and the UI components: no logic to model.
- Floating-point credits: `v.number()` is modelled as `int`, since every value in the code is an integer.
- UserTable.Error.Message: the wording of the database's own error for a patch on a missing id is not modelled.
- Billing.ReconcileOrderPaid: a `productId` that names an inherited property of a plain object (such as `"constructor"`) is treated as unknown. In the source the lookup yields a truthy value, and `addCredits` then rejects the missing credit amount at argument validation. The store is unchanged either way, but the outcome is `UnknownProductId` rather than `Caught`.
