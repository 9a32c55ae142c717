/** The verification-token lifecycle of lib/email.ts: building a token, storing it on the
    user found by email before the mail goes out, and consuming it. A user is in one of
    three states: no token, token pending, verified. */
module Email {
  import opened Wrappers
  import opened UserTable
  import opened Users

  // ---------------------------------------------------------------------------
  // Token construction

  /** `s.replace(/-/g, "")`: every '-' removed, every other character kept in order. */
  function StripHyphens(s: string): (r: string)
    ensures '-' !in r
    ensures |r| <= |s|
  {
    if s == [] then []
    else if s[0] == '-' then StripHyphens(s[1..])
    else [s[0]] + StripHyphens(s[1..])
  }

  lemma {:induction false} StripHyphensAppend(a: string, b: string)
    ensures StripHyphens(a + b) == StripHyphens(a) + StripHyphens(b)
  {
    if a == [] {
      assert a + b == b;
    } else {
      assert (a + b)[0] == a[0];
      assert (a + b)[1..] == a[1..] + b;
      StripHyphensAppend(a[1..], b);
    }
  }

  /** A string without '-' comes back unchanged. */
  lemma {:induction false} StripHyphensHyphenFree(s: string)
    requires '-' !in s
    ensures StripHyphens(s) == s
  {
    if s != [] {
      StripHyphensHyphenFree(s[1..]);
    }
  }

  /** The token: two UUIDs side by side, hyphens removed. */
  function MakeToken(uuid1: string, uuid2: string): (token: string)
    ensures '-' !in token
    ensures token == StripHyphens(uuid1) + StripHyphens(uuid2)
  {
    StripHyphensAppend(uuid1, uuid2);
    StripHyphens(uuid1 + uuid2)
  }

  predicate IsLowerHexDigit(c: char) {
    '0' <= c <= '9' || 'a' <= c <= 'f'
  }

  /** The form `randomUUID` returns: 36 characters, '-' at 8, 13, 18 and 23, lower-case hex elsewhere. */
  predicate IsCanonicalUuid(u: string) {
    && |u| == 36
    && forall i :: 0 <= i < |u| ==>
         if i == 8 || i == 13 || i == 18 || i == 23 then u[i] == '-' else IsLowerHexDigit(u[i])
  }

  predicate AllLowerHex(s: string) {
    forall i :: 0 <= i < |s| ==> IsLowerHexDigit(s[i])
  }

  /** A run of a canonical UUID that contains none of its hyphen positions is hex and survives stripping. */
  lemma HexRun(u: string, a: nat, b: nat)
    requires IsCanonicalUuid(u) && a <= b <= |u|
    requires !(a <= 8 < b) && !(a <= 13 < b) && !(a <= 18 < b) && !(a <= 23 < b)
    ensures AllLowerHex(u[a..b]) && StripHyphens(u[a..b]) == u[a..b]
  {
    var run := u[a..b];
    forall k | 0 <= k < |run| ensures IsLowerHexDigit(run[k]) {
      assert run[k] == u[a + k];
    }
    assert '-' !in run by {
      forall k | 0 <= k < |run| ensures run[k] != '-' {
        assert IsLowerHexDigit(run[k]);
      }
    }
    StripHyphensHyphenFree(run);
  }

  lemma HexConcat(a: string, b: string)
    requires AllLowerHex(a) && AllLowerHex(b)
    ensures AllLowerHex(a + b)
  {
  }

  /** Cutting a prefix at a hyphen: the hyphen goes, both sides are stripped on their own. */
  lemma StripAtHyphen(s: string, i: nat, j: nat)
    requires i < j <= |s| && s[i] == '-'
    ensures StripHyphens(s[..j]) == StripHyphens(s[..i]) + StripHyphens(s[i + 1..j])
  {
    assert s[..j] == s[..i] + (['-'] + s[i + 1..j]);
    StripHyphensAppend(s[..i], ['-'] + s[i + 1..j]);
    assert (['-'] + s[i + 1..j])[1..] == s[i + 1..j];
  }

  /** A canonical UUID loses exactly its four hyphens: 32 hex digits remain. */
  lemma UuidStripped(u: string)
    requires IsCanonicalUuid(u)
    ensures StripHyphens(u) == u[..8] + u[9..13] + u[14..18] + u[19..23] + u[24..]
    ensures |StripHyphens(u)| == 32 && AllLowerHex(StripHyphens(u))
  {
    var p0, p1, p2, p3, p4 := u[0..8], u[9..13], u[14..18], u[19..23], u[24..36];
    assert u[..8] == p0 && u[24..] == p4 && u[..36] == u;
    HexRun(u, 0, 8);
    HexRun(u, 9, 13);
    HexRun(u, 14, 18);
    HexRun(u, 19, 23);
    HexRun(u, 24, 36);
    StripAtHyphen(u, 8, 13);
    assert StripHyphens(u[..13]) == p0 + p1;
    StripAtHyphen(u, 13, 18);
    assert StripHyphens(u[..18]) == p0 + p1 + p2;
    StripAtHyphen(u, 18, 23);
    assert StripHyphens(u[..23]) == p0 + p1 + p2 + p3;
    StripAtHyphen(u, 23, 36);
    assert StripHyphens(u) == p0 + p1 + p2 + p3 + p4;
    HexConcat(p0, p1);
    HexConcat(p0 + p1, p2);
    HexConcat(p0 + p1 + p2, p3);
    HexConcat(p0 + p1 + p2 + p3, p4);
  }

  /** Two canonical UUIDs give a 64-character token of lower-case hex digits. */
  lemma TokenShape(uuid1: string, uuid2: string)
    requires IsCanonicalUuid(uuid1) && IsCanonicalUuid(uuid2)
    ensures |MakeToken(uuid1, uuid2)| == 64 && AllLowerHex(MakeToken(uuid1, uuid2))
  {
    UuidStripped(uuid1);
    UuidStripped(uuid2);
  }

  // ---------------------------------------------------------------------------
  // Verification states and errors

  datatype VerificationState = Unverified | Pending | Verified

  function StateOf(u: User): VerificationState {
    if u.verifyToken.Some? then Pending
    else if u.isVerified && u.emailVerified then Verified
    else Unverified
  }

  datatype EmailError =
    | EmailIsNull
    | UserNotFoundWithEmail(email: string)
    | FailedToSendVerificationEmail
    | InvalidOrExpiredToken
  {
    function Message(): string {
      match this
      case EmailIsNull => "Email is null"
      case UserNotFoundWithEmail(e) => "User not found with email: " + e
      case FailedToSendVerificationEmail => "Failed to send verification email"
      case InvalidOrExpiredToken => "Invalid or expired verification token"
    }
  }

  /** What the mail service answers: the sent message's data, or an error. */
  datatype SendReply = Delivered(data: string) | Rejected(error: string)

  /** What `verifyEmailToken` returns: the user as read before the update. */
  datatype VerifyReply = VerifyReply(success: bool, user: Doc)

  // ---------------------------------------------------------------------------
  // Issue and consume as transitions of the table

  /** `sendVerificationEmail`: store a fresh token on the user found by email, then send. */
  function IssueToken(db: Db, email: string, uuid1: string, uuid2: string, reply: SendReply)
    : (out: (Result<string, EmailError>, Db))
    requires WellFormed(db)
    ensures WellFormed(out.1)
    ensures email == "" ==> out == (Failure(EmailIsNull), db)
    ensures email != "" && GetUserByEmail(db, email).None? ==> out == (Failure(UserNotFoundWithEmail(email)), db)
    ensures email != "" && GetUserByEmail(db, email).Some? ==>
      var id := GetUserByEmail(db, email).value.id;
      && OnlyChanged(db, out.1, id)
      && out.1.users[id] == db.users[id].(verifyToken := Some(MakeToken(uuid1, uuid2)))
      && StateOf(out.1.users[id]) == Pending
      // the token stays stored whatever the mail service answers
      && (reply.Rejected? ==> out.0 == Failure(FailedToSendVerificationEmail))
      && (reply.Delivered? ==> out.0 == Success(reply.data))
  {
    if email == "" then (Failure(EmailIsNull), db)
    else
      var token := MakeToken(uuid1, uuid2);
      match GetUserByEmail(db, email)
      case None => (Failure(UserNotFoundWithEmail(email)), db)
      case Some(doc) =>
        var db' := UpdateVerificationToken(db, doc.id, token).1;
        match reply
        case Rejected(_) => (Failure(FailedToSendVerificationEmail), db')
        case Delivered(data) => (Success(data), db')
  }

  /** `verifyEmailToken`: find the user holding the token, mark it verified and clear the token. */
  function ConsumeToken(db: Db, token: string): (out: (Result<VerifyReply, EmailError>, Db))
    requires WellFormed(db)
    ensures WellFormed(out.1)
    ensures out.0.Failure? <==> forall j :: j in db.users ==> db.users[j].verifyToken != Some(token)
    ensures out.0.Failure? ==> out.0.error == InvalidOrExpiredToken && out.1 == db
    ensures out.0.Success? ==>
      var doc := out.0.value.user;
      && out.0.value.success
      && doc.id in db.users && doc.user == db.users[doc.id] && doc.user.verifyToken == Some(token)
      && OnlyChanged(db, out.1, doc.id)
      && out.1.users[doc.id] == db.users[doc.id].(isVerified := true, emailVerified := true, verifyToken := None)
      && StateOf(out.1.users[doc.id]) == Verified
  {
    match GetUserByVerifyToken(db, token)
    case None => (Failure(InvalidOrExpiredToken), db)
    case Some(doc) =>
      (Success(VerifyReply(true, doc)), UpdateUserVerification(db, doc.id, true, true, None).1)
  }

  /** No two documents hold this token. */
  ghost predicate HeldByAtMostOne(db: Db, token: string) {
    forall i, j ::
      (i in db.users && j in db.users && db.users[i].verifyToken == Some(token) && db.users[j].verifyToken == Some(token))
      ==> i == j
  }

  /** A token held by one user only is single-use: consuming it twice fails the second time. */
  lemma ConsumeIsSingleUse(db: Db, token: string)
    requires WellFormed(db) && HeldByAtMostOne(db, token)
    ensures var db1 := ConsumeToken(db, token).1;
      ConsumeToken(db1, token) == (Failure(InvalidOrExpiredToken), db1)
  {
  }

  /** The schema does not make tokens unique: when two users hold the same token, a
      second consume verifies the other one. */
  lemma ConsumeSharedTokenTwice(db: Db, token: string, i: UserId, j: UserId)
    requires WellFormed(db) && i in db.users && j in db.users && i != j
    requires db.users[i].verifyToken == Some(token) && db.users[j].verifyToken == Some(token)
    ensures var db1 := ConsumeToken(db, token).1;
      ConsumeToken(db1, token).0.Success?
  {
  }

  /** Issuing a token that no user holds yet, then consuming it, verifies the user found
      by email, whether or not the mail went out; the token is then spent. */
  lemma IssueThenConsume(db: Db, email: string, uuid1: string, uuid2: string, reply: SendReply)
    requires WellFormed(db) && email != "" && GetUserByEmail(db, email).Some?
    requires forall j :: j in db.users ==> db.users[j].verifyToken != Some(MakeToken(uuid1, uuid2))
    ensures
      var id := GetUserByEmail(db, email).value.id;
      var token := MakeToken(uuid1, uuid2);
      var db1 := IssueToken(db, email, uuid1, uuid2, reply).1;
      var (r2, db2) := ConsumeToken(db1, token);
      && StateOf(db1.users[id]) == Pending
      && r2.Success? && r2.value.user.id == id
      && StateOf(db2.users[id]) == Verified
      && ConsumeToken(db2, token).0 == Failure(InvalidOrExpiredToken)
  {
  }

  /** Issuing a new token overwrites the earlier one: the earlier token no longer leads to this user. */
  lemma ReissueRevokesEarlierToken(db: Db, email: string, uuid1: string, uuid2: string, reply: SendReply, earlier: string)
    requires WellFormed(db) && email != "" && GetUserByEmail(db, email).Some?
    requires earlier != MakeToken(uuid1, uuid2)
    ensures
      var id := GetUserByEmail(db, email).value.id;
      var db1 := IssueToken(db, email, uuid1, uuid2, reply).1;
      var found := GetUserByVerifyToken(db1, earlier);
      found.Some? ==> found.value.id != id
  {
  }

  /** When only this user held the earlier token, consuming it after a re-issue fails. */
  lemma ReissueThenConsumeEarlierFails(db: Db, email: string, uuid1: string, uuid2: string, reply: SendReply, earlier: string)
    requires WellFormed(db) && email != "" && GetUserByEmail(db, email).Some?
    requires earlier != MakeToken(uuid1, uuid2)
    requires forall j :: j in db.users && j != GetUserByEmail(db, email).value.id ==> db.users[j].verifyToken != Some(earlier)
    ensures var db1 := IssueToken(db, email, uuid1, uuid2, reply).1;
      ConsumeToken(db1, earlier) == (Failure(InvalidOrExpiredToken), db1)
  {
  }

  // ---------------------------------------------------------------------------
  // The two entry points, step by step against the store

  /** `sendVerificationEmail`: the token is written to the store before the mail is
      sent, so a mail failure leaves it in place. */
  method SendVerificationEmail(store: UserStore, email: string, uuid1: string, uuid2: string, reply: SendReply)
    returns (r: Result<string, EmailError>)
    requires store.Valid()
    modifies store
    ensures store.Valid()
    ensures (r, store.State()) == IssueToken(old(store.State()), email, uuid1, uuid2, reply)
  {
    if email == "" {
      return Failure(EmailIsNull);
    }
    var token := MakeToken(uuid1, uuid2);
    var user := GetUserByEmail(store.State(), email);
    if user.None? {
      return Failure(UserNotFoundWithEmail(email));
    }
    var patched := store.UpdateVerificationToken(user.value.id, token);
    assert patched == Pass;
    match reply {
      case Rejected(_) => r := Failure(FailedToSendVerificationEmail);
      case Delivered(data) => r := Success(data);
    }
  }

  /** `verifyEmailToken`: look the token up, then mark the user verified and clear it. */
  method VerifyEmailToken(store: UserStore, token: string) returns (r: Result<VerifyReply, EmailError>)
    requires store.Valid()
    modifies store
    ensures store.Valid()
    ensures (r, store.State()) == ConsumeToken(old(store.State()), token)
  {
    var user := GetUserByVerifyToken(store.State(), token);
    if user.None? {
      return Failure(InvalidOrExpiredToken);
    }
    var patched := store.UpdateUserVerification(user.value.id, true, true, None);
    assert patched == Pass;
    r := Success(VerifyReply(true, user.value));
  }
}
