/**
 The auth store over whole histories of calls: what every lookup finds, key by key,
 going back through the calls, and what deleting, revoking and consuming promise.
 */
module AuthHistory {
  import opened Text
  import opened AuthStore

  function At<T>(d: map<string, T>, k: string): Option<T> {
    if k in d then Some(d[k]) else None
  }

  function Owned<T>(row: Option<T>, owner: T -> string, id: string): bool {
    row.Some? && owner(row.value) == id
  }

  // ------------------------------------------------------- one key at a time

  /** Who has an email after a call; `was` is the user the call is about, as they were before it. */
  function EmailNext(c: Call, was: Option<User>, before: Option<string>, email: string): Option<string> {
    match c
    case CreateUser(u) => if u.email == email && before.None? then Some(u.id) else before
    case UpdateUser(u) =>
      if was.None? || was.value.email == u.email then before
      else if email == u.email then Some(u.id)
      else if email == was.value.email then None
      else before
    case DeleteUser(_) => if was.Some? && was.value.email == email then None else before
    case _ => before
  }

  /** The user with an ID after a call; `free` says whether the email of a new user was free. */
  function UserNext(c: Call, free: bool, before: Option<User>, id: string): Option<User> {
    match c
    case CreateUser(u) => if u.id == id && free then Some(u) else before
    case UpdateUser(u) => if u.id == id && before.Some? then Some(u) else before
    case DeleteUser(gone) => if gone == id then None else before
    case _ => before
  }

  /** The session of a token after a call; `known` says whether a user to delete was there. */
  function SessionNext(c: Call, known: bool, before: Option<Session>, token: string): Option<Session> {
    match c
    case CreateSession(s) => if s.token == token then Some(s) else before
    case RefreshSession(t, expiry, now) =>
      if t == token && before.Some? then Some(Session(before.value.token, before.value.userId, expiry, now))
      else before
    case RevokeSession(t) => if t == token then None else before
    case RevokeAllSessions(id) => if Owned(before, SessionOwner, id) then None else before
    case DeleteUser(id) => if known && Owned(before, SessionOwner, id) then None else before
    case _ => before
  }

  function AccountNext(c: Call, known: bool, before: Option<Account>, aid: string): Option<Account> {
    match c
    case CreateAccount(a) => if a.id == aid then Some(a) else before
    case UnlinkAccount(a) => if a == aid then None else before
    case DeleteUser(id) => if known && Owned(before, AccountOwner, id) then None else before
    case _ => before
  }

  function VerificationNext(c: Call, known: bool, before: Option<Verification>, code: string): Option<Verification> {
    match c
    case CreateVerification(v) => if v.token == code then Some(v) else before
    case ConsumeVerification(t) => if t == code then None else before
    case DeleteUser(id) => if known && Owned(before, VerificationOwner, id) then None else before
    case _ => before
  }

  /** The ID a call is about, if it is about a user. */
  function Subject(c: Call): string {
    match c
    case CreateUser(u) => u.id
    case UpdateUser(u) => u.id
    case DeleteUser(id) => id
    case _ => ""
  }

  /** Who has the email, going back through the calls. */
  function EmailIn(calls: seq<Call>, email: string): Option<string>
    decreases |calls|
  {
    if |calls| == 0 then None
    else
      var earlier, c := calls[..|calls| - 1], calls[|calls| - 1];
      EmailNext(c, UserIn(earlier, Subject(c)), EmailIn(earlier, email), email)
  }

  /** The user with an ID: last created under a free email or updated, and not deleted since. */
  function UserIn(calls: seq<Call>, id: string): Option<User>
    decreases |calls|
  {
    if |calls| == 0 then None
    else
      var earlier, c := calls[..|calls| - 1], calls[|calls| - 1];
      UserNext(c, c.CreateUser? && EmailIn(earlier, c.user.email).None?, UserIn(earlier, id), id)
  }

  /** The session of a token: last created, with the last expiry given to it, and not ended since. */
  function SessionIn(calls: seq<Call>, token: string): Option<Session> {
    if |calls| == 0 then None
    else
      var earlier, c := calls[..|calls| - 1], calls[|calls| - 1];
      SessionNext(c, UserIn(earlier, Subject(c)).Some?, SessionIn(earlier, token), token)
  }

  function AccountIn(calls: seq<Call>, aid: string): Option<Account> {
    if |calls| == 0 then None
    else
      var earlier, c := calls[..|calls| - 1], calls[|calls| - 1];
      AccountNext(c, UserIn(earlier, Subject(c)).Some?, AccountIn(earlier, aid), aid)
  }

  function VerificationIn(calls: seq<Call>, code: string): Option<Verification> {
    if |calls| == 0 then None
    else
      var earlier, c := calls[..|calls| - 1], calls[|calls| - 1];
      VerificationNext(c, UserIn(earlier, Subject(c)).Some?, VerificationIn(earlier, code), code)
  }

  // ------------------------------------------------ what a call does to one key

  lemma UserStep(db: Db, c: Call, id: string)
    ensures At(Apply(db, c).users, id)
         == UserNext(c, c.CreateUser? && At(db.byEmail, c.user.email).None?, At(db.users, id), id)
  {
  }

  lemma EmailStep(db: Db, c: Call, e: string)
    ensures At(Apply(db, c).byEmail, e) == EmailNext(c, At(db.users, Subject(c)), At(db.byEmail, e), e)
  {
  }

  lemma SessionStep(db: Db, c: Call, t: string)
    ensures At(Apply(db, c).sessions, t)
         == SessionNext(c, At(db.users, Subject(c)).Some?, At(db.sessions, t), t)
  {
  }

  lemma AccountStep(db: Db, c: Call, a: string)
    ensures At(Apply(db, c).accounts, a) == AccountNext(c, At(db.users, Subject(c)).Some?, At(db.accounts, a), a)
  {
  }

  lemma VerificationStep(db: Db, c: Call, v: string)
    ensures At(Apply(db, c).verifications, v)
         == VerificationNext(c, At(db.users, Subject(c)).Some?, At(db.verifications, v), v)
  {
  }

  /** What a history leaves in the two user tables. */
  lemma {:induction false} UserDecided(calls: seq<Call>, id: string)
    ensures At(Run(calls).users, id) == UserIn(calls, id)
    decreases |calls|
  {
    if |calls| > 0 {
      var earlier, c := calls[..|calls| - 1], calls[|calls| - 1];
      UserDecided(earlier, id);
      if c.CreateUser? {
        EmailDecided(earlier, c.user.email);
      }
      UserStep(Run(earlier), c, id);
    }
  }

  lemma {:induction false} EmailDecided(calls: seq<Call>, email: string)
    ensures At(Run(calls).byEmail, email) == EmailIn(calls, email)
    decreases |calls|
  {
    if |calls| > 0 {
      var earlier, c := calls[..|calls| - 1], calls[|calls| - 1];
      EmailDecided(earlier, email);
      UserDecided(earlier, Subject(c));
      EmailStep(Run(earlier), c, email);
    }
  }

  lemma {:induction false} SessionDecided(calls: seq<Call>, token: string)
    ensures At(Run(calls).sessions, token) == SessionIn(calls, token)
  {
    if |calls| > 0 {
      var earlier, c := calls[..|calls| - 1], calls[|calls| - 1];
      SessionDecided(earlier, token);
      UserDecided(earlier, Subject(c));
      SessionStep(Run(earlier), c, token);
    }
  }

  lemma {:induction false} AccountDecided(calls: seq<Call>, aid: string)
    ensures At(Run(calls).accounts, aid) == AccountIn(calls, aid)
  {
    if |calls| > 0 {
      var earlier, c := calls[..|calls| - 1], calls[|calls| - 1];
      AccountDecided(earlier, aid);
      UserDecided(earlier, Subject(c));
      AccountStep(Run(earlier), c, aid);
    }
  }

  lemma {:induction false} VerificationDecided(calls: seq<Call>, code: string)
    ensures At(Run(calls).verifications, code) == VerificationIn(calls, code)
  {
    if |calls| > 0 {
      var earlier, c := calls[..|calls| - 1], calls[|calls| - 1];
      VerificationDecided(earlier, code);
      UserDecided(earlier, Subject(c));
      VerificationStep(Run(earlier), c, code);
    }
  }

  /** For every history, every lookup finds what the calls say about that key. */
  lemma LookupsExactly(calls: seq<Call>, id: string, email: string, token: string, now: int)
    ensures FindByID(Run(calls), id) == match UserIn(calls, id) case Some(u) => Hit(u) case None => Missing
    ensures FindByEmail(Run(calls), email) ==
      match EmailIn(calls, email)
      case None => Missing
      case Some(owner) => match UserIn(calls, owner) case Some(u) => Hit(u) case None => NilPointer
    ensures FindSession(Run(calls), token, now) ==
      match SessionIn(calls, token)
      case None => Missing
      case Some(s) => if s.expiresAt < now then Expired else Hit(s)
  {
    UserDecided(calls, id);
    EmailDecided(calls, email);
    SessionDecided(calls, token);
    if EmailIn(calls, email).Some? {
      UserDecided(calls, EmailIn(calls, email).value);
    }
  }

  /** What a call reports after a history, in terms of the one key it is about. */
  lemma ReportsExactly(calls: seq<Call>, c: Call)
    ensures Report(Run(calls), c) == Conflict <==> c.CreateUser? && EmailIn(calls, c.user.email).Some?
    ensures Report(Run(calls), c) == NotFound
       <==> || (c.UpdateUser? && UserIn(calls, c.user.id).None?)
            || (c.DeleteUser? && UserIn(calls, c.id).None?)
            || (c.RefreshSession? && SessionIn(calls, c.token).None?)
            || (c.UnlinkAccount? && AccountIn(calls, c.id).None?)
            || (c.ConsumeVerification? && VerificationIn(calls, c.token).None?)
  {
    match c
    case CreateUser(u) => EmailDecided(calls, u.email);
    case UpdateUser(u) => UserDecided(calls, u.id);
    case DeleteUser(id) => UserDecided(calls, id);
    case RefreshSession(t, _, _) => SessionDecided(calls, t);
    case UnlinkAccount(a) => AccountDecided(calls, a);
    case ConsumeVerification(v) => VerificationDecided(calls, v);
    case _ =>
  }

  /** A call that reports an error has changed nothing. */
  lemma ErrorsChangeNothing(db: Db, c: Call)
    requires Report(db, c) != Done
    ensures Apply(db, c) == db
  {
  }

  // ---------------------------------------------------- what stays away, what stays

  lemma RunMore(calls: seq<Call>, more: seq<Call>)
    requires |more| > 0
    ensures Run(calls + more) == Apply(Run(calls + more[..|more| - 1]), more[|more| - 1])
  {
    assert (calls + more)[..|calls + more| - 1] == calls + more[..|more| - 1];
  }

  /** The call makes a row that is this user's. */
  predicate MakesRowOf(c: Call, id: string) {
    match c
    case CreateSession(s) => s.userId == id
    case CreateAccount(a) => a.userId == id
    case CreateVerification(v) => v.userId == id
    case _ => false
  }

  ghost predicate NoRowsOf(db: Db, id: string) {
    && (forall t :: t in db.sessions ==> db.sessions[t].userId != id)
    && (forall a :: a in db.accounts ==> db.accounts[a].userId != id)
    && (forall v :: v in db.verifications ==> db.verifications[v].userId != id)
  }

  lemma NoRowsStep(db: Db, c: Call, id: string)
    requires NoRowsOf(db, id) && !MakesRowOf(c, id)
    ensures NoRowsOf(Apply(db, c), id)
  {
  }

  lemma {:induction false} NoRowsAfter(calls: seq<Call>, more: seq<Call>, id: string)
    requires NoRowsOf(Run(calls), id) && forall i :: 0 <= i < |more| ==> !MakesRowOf(more[i], id)
    ensures NoRowsOf(Run(calls + more), id)
  {
    if |more| == 0 {
      assert calls + more == calls;
    } else {
      NoRowsAfter(calls, more[..|more| - 1], id);
      RunMore(calls, more);
      NoRowsStep(Run(calls + more[..|more| - 1]), more[|more| - 1], id);
    }
  }

  /** After a user is deleted, nothing in the store is theirs until something is created for them again. */
  lemma DeletedUserOwnsNothing(calls: seq<Call>, id: string, more: seq<Call>)
    requires id in Run(calls).users && forall i :: 0 <= i < |more| ==> !MakesRowOf(more[i], id)
    ensures NoRowsOf(Run(calls + [DeleteUser(id)] + more), id)
  {
    var after := calls + [DeleteUser(id)];
    assert after[..|calls|] == calls;
    DeleteLeaves(Run(calls), id);
    NoRowsAfter(after, more, id);
  }

  ghost predicate NoSessionsOf(db: Db, id: string) {
    forall t :: t in db.sessions ==> db.sessions[t].userId != id
  }

  lemma NoSessionsStep(db: Db, c: Call, id: string)
    requires NoSessionsOf(db, id) && (c.CreateSession? ==> c.session.userId != id)
    ensures NoSessionsOf(Apply(db, c), id)
  {
  }

  lemma {:induction false} NoSessionsAfter(calls: seq<Call>, more: seq<Call>, id: string)
    requires NoSessionsOf(Run(calls), id)
    requires forall i :: 0 <= i < |more| && more[i].CreateSession? ==> more[i].session.userId != id
    ensures NoSessionsOf(Run(calls + more), id)
  {
    if |more| == 0 {
      assert calls + more == calls;
    } else {
      NoSessionsAfter(calls, more[..|more| - 1], id);
      RunMore(calls, more);
      NoSessionsStep(Run(calls + more[..|more| - 1]), more[|more| - 1], id);
    }
  }

  /** After all of a user's sessions are revoked, no token finds one until one is created. */
  lemma RevokedUserIsSignedOut(calls: seq<Call>, id: string, more: seq<Call>, token: string, now: int)
    requires forall i :: 0 <= i < |more| && more[i].CreateSession? ==> more[i].session.userId != id
    ensures var found := FindSession(Run(calls + [RevokeAllSessions(id)] + more), token, now);
      found.Hit? ==> found.value.userId != id
  {
    var after := calls + [RevokeAllSessions(id)];
    assert after[..|calls|] == calls;
    RevokeLeaves(Run(calls), id);
    NoSessionsAfter(after, more, id);
  }

  /** The call makes, moves or ends this session. */
  predicate Touches(c: Call, s: Session) {
    match c
    case CreateSession(other) => other.token == s.token
    case RefreshSession(t, _, _) => t == s.token
    case RevokeSession(t) => t == s.token
    case RevokeAllSessions(id) => id == s.userId
    case DeleteUser(id) => id == s.userId
    case _ => false
  }

  lemma {:induction false} SessionStays(calls: seq<Call>, s: Session, more: seq<Call>)
    requires At(Run(calls).sessions, s.token) == Some(s) && forall i :: 0 <= i < |more| ==> !Touches(more[i], s)
    ensures At(Run(calls + more).sessions, s.token) == Some(s)
  {
    if |more| == 0 {
      assert calls + more == calls;
    } else {
      SessionStays(calls, s, more[..|more| - 1]);
      RunMore(calls, more);
      SessionStep(Run(calls + more[..|more| - 1]), more[|more| - 1], s.token);
    }
  }

  /** A session created is found, as it was given, until it expires, whatever is done to others. */
  lemma SessionReadsBack(calls: seq<Call>, s: Session, more: seq<Call>, now: int)
    requires forall i :: 0 <= i < |more| ==> !Touches(more[i], s)
    ensures FindSession(Run(calls + [CreateSession(s)] + more), s.token, now)
         == if s.expiresAt < now then Expired else Hit(s)
  {
    var after := calls + [CreateSession(s)];
    assert after[..|calls|] == calls;
    SessionStays(after, s, more);
  }

  /** A refreshed session is the old one with the new expiry. */
  lemma RefreshMovesExpiry(calls: seq<Call>, s: Session, expiry: int, at: int, more: seq<Call>, now: int)
    requires At(Run(calls).sessions, s.token) == Some(s)
    requires forall i :: 0 <= i < |more| ==> !Touches(more[i], s)
    ensures FindSession(Run(calls + [RefreshSession(s.token, expiry, at)] + more), s.token, now)
         == if expiry < now then Expired else Hit(Session(s.token, s.userId, expiry, at))
  {
    var after := calls + [RefreshSession(s.token, expiry, at)];
    assert after[..|calls|] == calls;
    SessionStays(after, Session(s.token, s.userId, expiry, at), more);
  }

  lemma {:induction false} CodeStaysAway(calls: seq<Call>, code: string, more: seq<Call>)
    requires code !in Run(calls).verifications
    requires forall i :: 0 <= i < |more| && more[i].CreateVerification? ==> more[i].verification.token != code
    ensures code !in Run(calls + more).verifications
  {
    if |more| == 0 {
      assert calls + more == calls;
    } else {
      CodeStaysAway(calls, code, more[..|more| - 1]);
      RunMore(calls, more);
      VerificationStep(Run(calls + more[..|more| - 1]), more[|more| - 1], code);
    }
  }

  /** A code can be consumed once: until it is created again, consuming it is not found. */
  lemma CodesAreSingleUse(calls: seq<Call>, code: string, more: seq<Call>)
    requires forall i :: 0 <= i < |more| && more[i].CreateVerification? ==> more[i].verification.token != code
    ensures Report(Run(calls + [ConsumeVerification(code)] + more), ConsumeVerification(code)) == NotFound
  {
    var after := calls + [ConsumeVerification(code)];
    assert after[..|calls|] == calls;
    VerificationStep(Run(calls), ConsumeVerification(code), code);
    CodeStaysAway(after, code, more);
    MissingCode(Run(after + more), code);
  }

  lemma MissingCode(db: Db, code: string)
    requires code !in db.verifications
    ensures Report(db, ConsumeVerification(code)) == NotFound
  {
  }
}
