/** The `users` table of convex/users.ts as a store updated in place: one method per
    mutation, each proved to take the table exactly where the matching transition of
    UserTable says. The queries are the UserTable functions applied to `State()`. */
module Users {
  import opened Wrappers
  import opened UserTable

  class UserStore {
    var users: map<UserId, User>
    var nextId: nat

    /** The table as a value. */
    function State(): Db
      reads this
    {
      Db(users, nextId)
    }

    ghost predicate Valid()
      reads this
    {
      WellFormed(State())
    }

    /** An empty table. */
    constructor ()
      ensures Valid() && users == map[] && nextId == 0
    {
      users := map[];
      nextId := 0;
    }

    /** `createUser`: inserts the document and returns its new id. */
    method CreateUser(args: NewUser) returns (id: UserId)
      requires Valid()
      modifies this
      ensures Valid()
      ensures (id, State()) == UserTable.CreateUser(old(State()), args)
    {
      id := nextId;
      users := users[id := NewRecord(args)];
      nextId := nextId + 1;
    }

    /** `addCredits`: read the user by Polar customer id, then patch its balance. */
    method AddCredits(userId: string, credits: int, polarCustomerId: string)
      returns (r: Result<AddCreditsReply, Error>)
      requires Valid()
      modifies this
      ensures Valid()
      ensures (r, State()) == UserTable.AddCredits(old(State()), userId, credits, polarCustomerId)
    {
      var user := GetUserByPolarCustomerId(State(), polarCustomerId);
      if user.None? {
        return Failure(UserNotFoundWithPolarCustomerId(polarCustomerId));
      }
      var doc := user.value;
      var updatedCredits := doc.user.credits + credits;
      users := users[doc.id := doc.user.(credits := updatedCredits, polarCustomerId := Some(polarCustomerId))];
      r := Success(AddCreditsReply(true, doc.id, updatedCredits, credits));
    }

    /** `deductCredits`: read the user by id, refuse a short balance, then patch it. */
    method DeductCredits(userId: UserId, credits: int) returns (r: Result<DeductCreditsReply, Error>)
      requires Valid()
      modifies this
      ensures Valid()
      ensures (r, State()) == UserTable.DeductCredits(old(State()), userId, credits)
    {
      var user := GetUser(State(), userId);
      if user.None? {
        return Failure(UserNotFound);
      }
      if user.value.user.credits < credits {
        return Failure(InsufficientCredits);
      }
      var newCredits := user.value.user.credits - credits;
      users := users[userId := user.value.user.(credits := newCredits)];
      r := Success(DeductCreditsReply(true, newCredits, credits));
    }

    /** `updateUserVerification`: patch the two flags and the token. */
    method UpdateUserVerification(userId: UserId, isVerified: bool, emailVerified: bool, verifyToken: Option<string>)
      returns (r: Outcome<Error>)
      requires Valid()
      modifies this
      ensures Valid()
      ensures (r, State()) == UserTable.UpdateUserVerification(old(State()), userId, isVerified, emailVerified, verifyToken)
    {
      if userId !in users {
        return Fail(NonexistentDocument(userId));
      }
      users := users[userId := users[userId].(isVerified := isVerified, emailVerified := emailVerified, verifyToken := verifyToken)];
      r := Pass;
    }

    /** `updatePolarCustomerId`: patch the customer id. */
    method UpdatePolarCustomerId(userId: UserId, polarCustomerId: string) returns (r: Outcome<Error>)
      requires Valid()
      modifies this
      ensures Valid()
      ensures (r, State()) == UserTable.UpdatePolarCustomerId(old(State()), userId, polarCustomerId)
    {
      if userId !in users {
        return Fail(NonexistentDocument(userId));
      }
      users := users[userId := users[userId].(polarCustomerId := Some(polarCustomerId))];
      r := Pass;
    }

    /** `updateVerificationToken`: patch the token. */
    method UpdateVerificationToken(userId: UserId, verifyToken: string) returns (r: Outcome<Error>)
      requires Valid()
      modifies this
      ensures Valid()
      ensures (r, State()) == UserTable.UpdateVerificationToken(old(State()), userId, verifyToken)
    {
      if userId !in users {
        return Fail(NonexistentDocument(userId));
      }
      users := users[userId := users[userId].(verifyToken := Some(verifyToken))];
      r := Pass;
    }
  }
}
