/** The `users` table of convex/users.ts as a value: its records, its three secondary
    indexes, its queries, and each of its mutations as a transition from the table
    before the mutation to the reply and the table after it. Convex runs each
    mutation as one transaction, so a transition is one atomic step. */
module UserTable {
  import opened Wrappers

  /** Document ids are handed out in increasing order, so a smaller id is an older record. */
  type UserId = nat

  /** One document of the `users` table. */
  datatype User = User(
    name: Option<string>,
    email: string,
    emailVerified: bool,
    image: Option<string>,
    hashedPassword: Option<string>,
    isVerified: bool,
    verifyToken: Option<string>,
    credits: int,
    polarCustomerId: Option<string>)

  /** A document together with its `_id`, as queries return it. */
  datatype Doc = Doc(id: UserId, user: User)

  /** The table: its documents, and the id the next insert receives. */
  datatype Db = Db(users: map<UserId, User>, nextId: nat)

  /** Every stored id was issued before `nextId`. */
  ghost predicate WellFormed(db: Db) {
    forall id :: id in db.users ==> id < db.nextId
  }

  /** Two tables that differ at most in the document `id`. */
  ghost predicate OnlyChanged(db: Db, db': Db, id: UserId) {
    && db'.nextId == db.nextId
    && db'.users.Keys == db.users.Keys
    && forall j :: j in db.users && j != id ==> db'.users[j] == db.users[j]
  }

  // ---------------------------------------------------------------------------
  // Errors

  datatype Error =
    | UserNotFoundWithPolarCustomerId(polarCustomerId: string)
    | UserNotFound
    | InsufficientCredits
      /** `ctx.db.patch` on an id that holds no document: thrown by the database itself. */
    | NonexistentDocument(id: UserId)
  {
    /** The text of the thrown `Error`. */
    function Message(): string {
      match this
      case UserNotFoundWithPolarCustomerId(c) => "User not found with polarCustomerId: " + c
      case UserNotFound => "User not found"
      case InsufficientCredits => "Insufficient credits"
      case NonexistentDocument(_) => "nonexistent document"
    }
  }

  // ---------------------------------------------------------------------------
  // Indexes and queries

  /** The three indexes of the table: `by_email`, `by_verify_token`, `by_polar_customer_id`. */
  datatype IndexKey =
    | ByEmail(email: string)
    | ByVerifyToken(token: string)
    | ByPolarCustomerId(customerId: string)

  /** An index equality `q.eq(field, key)`: a record whose optional field is unset never matches. */
  predicate Matches(u: User, key: IndexKey) {
    match key
    case ByEmail(e) => u.email == e
    case ByVerifyToken(t) => u.verifyToken == Some(t)
    case ByPolarCustomerId(c) => u.polarCustomerId == Some(c)
  }

  /** The smallest id in [from, bound) whose record matches `key`. */
  function FirstMatch(users: map<UserId, User>, key: IndexKey, from: nat, bound: nat): (r: Option<UserId>)
    ensures r.Some? ==> from <= r.value < bound && r.value in users && Matches(users[r.value], key)
    ensures r.Some? ==> forall j :: from <= j < r.value && j in users ==> !Matches(users[j], key)
    ensures r.None? ==> forall j :: from <= j < bound && j in users ==> !Matches(users[j], key)
    decreases bound - from
  {
    if bound <= from then None
    else if from in users && Matches(users[from], key) then Some(from)
    else FirstMatch(users, key, from + 1, bound)
  }

  /** `.withIndex(...).first()`: the oldest matching document, or null when none matches. */
  function Find(db: Db, key: IndexKey): (r: Option<Doc>)
    requires WellFormed(db)
    ensures r.Some? ==> r.value.id in db.users && r.value.user == db.users[r.value.id]
    ensures r.Some? ==> Matches(r.value.user, key)
    ensures r.Some? ==> forall j :: j in db.users && j < r.value.id ==> !Matches(db.users[j], key)
    ensures r.None? <==> forall j :: j in db.users ==> !Matches(db.users[j], key)
  {
    match FirstMatch(db.users, key, 0, db.nextId)
    case None => None
    case Some(id) => Some(Doc(id, db.users[id]))
  }

  /** An index lookup only depends on which records match. */
  lemma FindStable(db: Db, db': Db, key: IndexKey)
    requires WellFormed(db) && WellFormed(db')
    requires db'.users.Keys == db.users.Keys
    requires forall j :: j in db.users ==> (Matches(db'.users[j], key) <==> Matches(db.users[j], key))
    ensures Find(db', key).None? <==> Find(db, key).None?
    ensures Find(db', key).Some? ==> Find(db', key).value.id == Find(db, key).value.id
  {
  }

  /** `getUser`: the document with that id, or null. */
  function GetUser(db: Db, userId: UserId): (r: Option<Doc>)
    ensures r.Some? <==> userId in db.users
    ensures r.Some? ==> r.value.id == userId && r.value.user == db.users[userId]
  {
    if userId in db.users then Some(Doc(userId, db.users[userId])) else None
  }

  /** `getUserByEmail`: the oldest document with that email, or null. */
  function GetUserByEmail(db: Db, email: string): (r: Option<Doc>)
    requires WellFormed(db)
    ensures r.Some? ==> r.value.id in db.users && r.value.user == db.users[r.value.id]
    ensures r.Some? ==> r.value.user.email == email
    ensures r.Some? ==> forall j :: j in db.users && j < r.value.id ==> db.users[j].email != email
    ensures r.None? <==> forall j :: j in db.users ==> db.users[j].email != email
  {
    Find(db, ByEmail(email))
  }

  /** `getUserByPolarCustomerId`: the oldest document carrying that customer id, or null. */
  function GetUserByPolarCustomerId(db: Db, polarCustomerId: string): (r: Option<Doc>)
    requires WellFormed(db)
    ensures r.Some? ==> r.value.id in db.users && r.value.user == db.users[r.value.id]
    ensures r.Some? ==> r.value.user.polarCustomerId == Some(polarCustomerId)
    ensures r.Some? ==> forall j :: j in db.users && j < r.value.id ==> db.users[j].polarCustomerId != Some(polarCustomerId)
    ensures r.None? <==> forall j :: j in db.users ==> db.users[j].polarCustomerId != Some(polarCustomerId)
  {
    Find(db, ByPolarCustomerId(polarCustomerId))
  }

  /** `getUserByVerifyToken`: the oldest document holding that token, or null. */
  function GetUserByVerifyToken(db: Db, token: string): (r: Option<Doc>)
    requires WellFormed(db)
    ensures r.Some? ==> r.value.id in db.users && r.value.user == db.users[r.value.id]
    ensures r.Some? ==> r.value.user.verifyToken == Some(token)
    ensures r.Some? ==> forall j :: j in db.users && j < r.value.id ==> db.users[j].verifyToken != Some(token)
    ensures r.None? <==> forall j :: j in db.users ==> db.users[j].verifyToken != Some(token)
  {
    Find(db, ByVerifyToken(token))
  }

  /** `getUserCredits`: `{ credits }` of the document, or null. */
  function GetUserCredits(db: Db, userId: UserId): (r: Option<int>)
    ensures r.Some? <==> userId in db.users
    ensures r.Some? ==> r.value == db.users[userId].credits
  {
    match GetUser(db, userId)
    case None => None
    case Some(doc) => Some(doc.user.credits)
  }

  // ---------------------------------------------------------------------------
  // Mutations

  /** The arguments of `createUser`. */
  datatype NewUser = NewUser(
    email: string,
    name: Option<string>,
    image: Option<string>,
    hashedPassword: Option<string>,
    isVerified: bool,
    verifyToken: Option<string>,
    credits: Option<int>,
    polarCustomerId: Option<string>)

  /** The balance of a new user when `createUser` is given none. */
  const DefaultCredits := 10

  /** The document `createUser` inserts. */
  function NewRecord(args: NewUser): (u: User)
    ensures !u.emailVerified
    ensures u.credits == (if args.credits.Some? then args.credits.value else DefaultCredits)
    ensures u.email == args.email && u.isVerified == args.isVerified && u.verifyToken == args.verifyToken
    ensures u.polarCustomerId == args.polarCustomerId
    ensures u.name == args.name && u.image == args.image && u.hashedPassword == args.hashedPassword
  {
    User(args.name, args.email, false, args.image, args.hashedPassword, args.isVerified,
         args.verifyToken,
         match args.credits case Some(c) => c case None => DefaultCredits,
         args.polarCustomerId)
  }

  /** `createUser`: inserts a new document under a fresh id; no other document changes. */
  function CreateUser(db: Db, args: NewUser): (out: (UserId, Db))
    requires WellFormed(db)
    ensures WellFormed(out.1)
    ensures out.0 !in db.users && out.1.users.Keys == db.users.Keys + {out.0}
    ensures forall j :: j in db.users ==> out.1.users[j] == db.users[j]
    ensures out.1.users[out.0] == NewRecord(args)
  {
    var id := db.nextId;
    (id, Db(db.users[id := NewRecord(args)], db.nextId + 1))
  }

  /** `createUser` has no duplicate-email check: it inserts anyway, and the
      lookup by email goes on returning the older document. */
  lemma CreateUserKeepsOlderEmailMatch(db: Db, args: NewUser)
    requires WellFormed(db)
    requires GetUserByEmail(db, args.email).Some?
    ensures var (id, db') := CreateUser(db, args);
      && id in db'.users && db'.users[id].email == args.email
      && GetUserByEmail(db', args.email) == GetUserByEmail(db, args.email)
  {
  }

  /** The reply of `addCredits`. */
  datatype AddCreditsReply = AddCreditsReply(success: bool, userId: UserId, newCredits: int, addedCredits: int)

  /** `addCredits`: finds the user by Polar customer id and adds `credits` to its balance.
      `userId` (the auth library's id) is accepted but not used. */
  function AddCredits(db: Db, userId: string, credits: int, polarCustomerId: string): (out: (Result<AddCreditsReply, Error>, Db))
    requires WellFormed(db)
    ensures WellFormed(out.1)
    ensures out.0.Failure? <==> forall j :: j in db.users ==> db.users[j].polarCustomerId != Some(polarCustomerId)
    ensures out.0.Failure? ==> out.0.error == UserNotFoundWithPolarCustomerId(polarCustomerId) && out.1 == db
    ensures out.0.Success? ==>
      var id := out.0.value.userId;
      && id in db.users
      && GetUserByPolarCustomerId(db, polarCustomerId) == Some(Doc(id, db.users[id]))
      && out.0.value == AddCreditsReply(true, id, db.users[id].credits + credits, credits)
      && OnlyChanged(db, out.1, id)
      // rewriting polarCustomerId with the value it was found by leaves it as it was
      && out.1.users[id] == db.users[id].(credits := db.users[id].credits + credits)
  {
    match GetUserByPolarCustomerId(db, polarCustomerId)
    case None => (Failure(UserNotFoundWithPolarCustomerId(polarCustomerId)), db)
    case Some(doc) =>
      var updatedCredits := doc.user.credits + credits;
      var patched := doc.user.(credits := updatedCredits, polarCustomerId := Some(polarCustomerId));
      (Success(AddCreditsReply(true, doc.id, updatedCredits, credits)), Db(db.users[doc.id := patched], db.nextId))
  }

  /** The reply of `deductCredits`. */
  datatype DeductCreditsReply = DeductCreditsReply(success: bool, newCredits: int, deductedCredits: int)

  /** `deductCredits`: takes `credits` off the balance unless the user is missing or the balance is short. */
  function DeductCredits(db: Db, userId: UserId, credits: int): (out: (Result<DeductCreditsReply, Error>, Db))
    ensures userId !in db.users ==> out == (Failure(UserNotFound), db)
    ensures userId in db.users && db.users[userId].credits < credits ==> out == (Failure(InsufficientCredits), db)
    ensures out.0.Success? <==> userId in db.users && credits <= db.users[userId].credits
    ensures out.0.Success? ==>
      && out.0.value == DeductCreditsReply(true, db.users[userId].credits - credits, credits)
      && OnlyChanged(db, out.1, userId)
      && out.1.users[userId] == db.users[userId].(credits := db.users[userId].credits - credits)
      && out.1.users[userId].credits >= 0
  {
    match GetUser(db, userId)
    case None => (Failure(UserNotFound), db)
    case Some(doc) =>
      if doc.user.credits < credits then (Failure(InsufficientCredits), db)
      else
        var newCredits := doc.user.credits - credits;
        (Success(DeductCreditsReply(true, newCredits, credits)),
         Db(db.users[userId := doc.user.(credits := newCredits)], db.nextId))
  }

  /** `updateUserVerification`: patches the two flags and the token (None removes the token). */
  function UpdateUserVerification(db: Db, userId: UserId, isVerified: bool, emailVerified: bool, verifyToken: Option<string>)
    : (out: (Outcome<Error>, Db))
    ensures out.0.Fail? <==> userId !in db.users
    ensures out.0.Fail? ==> out.0.error == NonexistentDocument(userId) && out.1 == db
    ensures out.0.Pass? ==>
      && OnlyChanged(db, out.1, userId)
      && out.1.users[userId] == db.users[userId].(isVerified := isVerified, emailVerified := emailVerified, verifyToken := verifyToken)
  {
    if userId !in db.users then (Fail(NonexistentDocument(userId)), db)
    else
      var u := db.users[userId];
      (Pass, Db(db.users[userId := u.(isVerified := isVerified, emailVerified := emailVerified, verifyToken := verifyToken)], db.nextId))
  }

  /** `updatePolarCustomerId`: patches the customer id only. */
  function UpdatePolarCustomerId(db: Db, userId: UserId, polarCustomerId: string): (out: (Outcome<Error>, Db))
    ensures out.0.Fail? <==> userId !in db.users
    ensures out.0.Fail? ==> out.0.error == NonexistentDocument(userId) && out.1 == db
    ensures out.0.Pass? ==>
      && OnlyChanged(db, out.1, userId)
      && out.1.users[userId] == db.users[userId].(polarCustomerId := Some(polarCustomerId))
  {
    if userId !in db.users then (Fail(NonexistentDocument(userId)), db)
    else (Pass, Db(db.users[userId := db.users[userId].(polarCustomerId := Some(polarCustomerId))], db.nextId))
  }

  /** `updateVerificationToken`: patches the token only, overwriting any earlier one. */
  function UpdateVerificationToken(db: Db, userId: UserId, verifyToken: string): (out: (Outcome<Error>, Db))
    ensures out.0.Fail? <==> userId !in db.users
    ensures out.0.Fail? ==> out.0.error == NonexistentDocument(userId) && out.1 == db
    ensures out.0.Pass? ==>
      && OnlyChanged(db, out.1, userId)
      && out.1.users[userId] == db.users[userId].(verifyToken := Some(verifyToken))
  {
    if userId !in db.users then (Fail(NonexistentDocument(userId)), db)
    else (Pass, Db(db.users[userId := db.users[userId].(verifyToken := Some(verifyToken))], db.nextId))
  }

  /** A patch that leaves the index field of `key` alone in every record keeps what the index finds. */
  lemma PatchKeepsLookup(db: Db, db': Db, id: UserId, key: IndexKey)
    requires WellFormed(db) && OnlyChanged(db, db', id) && id in db.users
    requires Matches(db'.users[id], key) == Matches(db.users[id], key)
    ensures WellFormed(db')
    ensures Find(db', key).None? <==> Find(db, key).None?
    ensures Find(db', key).Some? ==> Find(db', key).value.id == Find(db, key).value.id
  {
  }

  // ---------------------------------------------------------------------------
  // The ledger of one account over a run of grants and deducts

  datatype LedgerOp = Grant(amount: int) | Deduct(amount: int)

  /** Reference balance: a grant adds its amount; a deduct subtracts its amount
      when the balance covers it and is refused otherwise. */
  function LedgerBalance(balance: int, ops: seq<LedgerOp>): int
    decreases |ops|
  {
    if ops == [] then balance
    else match ops[0]
      case Grant(a) => LedgerBalance(balance + a, ops[1..])
      case Deduct(a) => LedgerBalance(if a <= balance then balance - a else balance, ops[1..])
  }

  /** Deducts never drive a balance negative: starting from a non-negative
      balance and granting only non-negative amounts, the balance stays non-negative. */
  lemma {:induction false} LedgerBalanceNonNegative(balance: int, ops: seq<LedgerOp>)
    requires balance >= 0
    requires forall i :: 0 <= i < |ops| ==> (ops[i].Grant? ==> ops[i].amount >= 0)
    ensures LedgerBalance(balance, ops) >= 0
    decreases |ops|
  {
    if ops != [] {
      var next := match ops[0]
        case Grant(a) => balance + a
        case Deduct(a) => if a <= balance then balance - a else balance;
      assert next >= 0;
      assert forall i :: 0 <= i < |ops[1..]| ==> ops[1..][i] == ops[i + 1];
      LedgerBalanceNonNegative(next, ops[1..]);
    }
  }

  /** One op against the table: a grant is `addCredits` by Polar customer id,
      a deduct is `deductCredits` by document id. */
  function LedgerStep(db: Db, authId: string, userId: UserId, polarCustomerId: string, op: LedgerOp): (db': Db)
    requires WellFormed(db)
    ensures WellFormed(db')
  {
    match op
    case Grant(a) => AddCredits(db, authId, a, polarCustomerId).1
    case Deduct(a) => DeductCredits(db, userId, a).1
  }

  /** Runs the ops against the table one after the other. */
  function ApplyLedger(db: Db, authId: string, userId: UserId, polarCustomerId: string, ops: seq<LedgerOp>): (db': Db)
    requires WellFormed(db)
    ensures WellFormed(db')
    decreases |ops|
  {
    if ops == [] then db
    else ApplyLedger(LedgerStep(db, authId, userId, polarCustomerId, ops[0]), authId, userId, polarCustomerId, ops[1..])
  }

  /** The account the customer id resolves to: its document is the first one carrying it. */
  ghost predicate ResolvesTo(db: Db, polarCustomerId: string, userId: UserId)
    requires WellFormed(db)
  {
    userId in db.users && GetUserByPolarCustomerId(db, polarCustomerId) == Some(Doc(userId, db.users[userId]))
  }

  /** One op changes only the balance of the resolved account, by the reference
      amount, and the customer id goes on resolving to it. */
  lemma LedgerStepBalance(db: Db, authId: string, userId: UserId, polarCustomerId: string, op: LedgerOp)
    requires WellFormed(db) && ResolvesTo(db, polarCustomerId, userId)
    ensures var db' := LedgerStep(db, authId, userId, polarCustomerId, op);
      && OnlyChanged(db, db', userId)
      && db'.users[userId] == db.users[userId].(credits := db'.users[userId].credits)
      && db'.users[userId].credits == LedgerBalance(db.users[userId].credits, [op])
      && ResolvesTo(db', polarCustomerId, userId)
  {
  }

  lemma OnlyChangedTransitive(db0: Db, db1: Db, db2: Db, id: UserId)
    requires OnlyChanged(db0, db1, id) && OnlyChanged(db1, db2, id)
    ensures OnlyChanged(db0, db2, id)
  {
  }

  /** For an account that the Polar customer id resolves to, running grants and
      deducts leaves exactly the reference balance, and no other document changes. */
  lemma {:induction false} ApplyLedgerBalance(db: Db, authId: string, userId: UserId, polarCustomerId: string, ops: seq<LedgerOp>)
    requires WellFormed(db) && ResolvesTo(db, polarCustomerId, userId)
    ensures var db' := ApplyLedger(db, authId, userId, polarCustomerId, ops);
      && OnlyChanged(db, db', userId)
      && db'.users[userId] == db.users[userId].(credits := db'.users[userId].credits)
      && db'.users[userId].credits == LedgerBalance(db.users[userId].credits, ops)
    decreases |ops|
  {
    if ops != [] {
      var next := LedgerStep(db, authId, userId, polarCustomerId, ops[0]);
      LedgerStepBalance(db, authId, userId, polarCustomerId, ops[0]);
      ApplyLedgerBalance(next, authId, userId, polarCustomerId, ops[1..]);
      var db' := ApplyLedger(db, authId, userId, polarCustomerId, ops);
      assert db' == ApplyLedger(next, authId, userId, polarCustomerId, ops[1..]);
      assert LedgerBalance(db.users[userId].credits, ops)
        == LedgerBalance(LedgerBalance(db.users[userId].credits, [ops[0]]), ops[1..]);
      OnlyChangedTransitive(db, next, db', userId);
    }
  }
}
