/**
 The in-memory auth store: five tables, one of them an index of users by email,
 holding pointers to private copies of what callers pass in.
 */
module AuthStore {
  import opened Text

  datatype User = User(id: string, email: string, profile: string)
  datatype Session = Session(token: string, userId: string, expiresAt: int, updatedAt: int)
  datatype Account = Account(id: string, userId: string, provider: string)
  datatype Verification = Verification(token: string, userId: string, kind: string)

  /** The tables as values. */
  datatype Db = Db(
    users: map<string, User>,
    byEmail: map<string, string>,
    sessions: map<string, Session>,
    accounts: map<string, Account>,
    verifications: map<string, Verification>)

  datatype Outcome = Done | Conflict | NotFound

  /** A lookup either hits, misses, finds the record expired, or dereferences a nil pointer. */
  datatype Lookup<T> = Hit(value: T) | Missing | Expired | NilPointer

  const EMPTY := Db(map[], map[], map[], map[], map[])

  /** A table without the rows of one user. */
  function Without<T>(d: map<string, T>, owner: T -> string, id: string): map<string, T> {
    map k | k in d && owner(d[k]) != id :: d[k]
  }

  function SessionOwner(s: Session): string { s.userId }

  function AccountOwner(a: Account): string { a.userId }

  function VerificationOwner(v: Verification): string { v.userId }

  // -------------------------------------------------------- calls on the tables

  datatype Call =
    | CreateUser(user: User)
    | UpdateUser(user: User)
    | DeleteUser(id: string)
    | CreateSession(session: Session)
    | RefreshSession(token: string, expiry: int, now: int)
    | RevokeSession(token: string)
    | RevokeAllSessions(id: string)
    | CreateAccount(account: Account)
    | UnlinkAccount(id: string)
    | CreateVerification(verification: Verification)
    | ConsumeVerification(token: string)

  function AddUser(db: Db, u: User): Db {
    db.(users := db.users[u.id := u], byEmail := db.byEmail[u.email := u.id])
  }

  function ReplaceUser(db: Db, u: User): Db
    requires u.id in db.users
  {
    var was := db.users[u.id].email;
    db.(users := db.users[u.id := u],
        byEmail := if was == u.email then db.byEmail else (db.byEmail - {was})[u.email := u.id])
  }

  /** The user, the index entry of their email, and everything that is theirs. */
  function RemoveUser(db: Db, id: string): Db
    requires id in db.users
  {
    Db(db.users - {id},
       db.byEmail - {db.users[id].email},
       Without(db.sessions, SessionOwner, id),
       Without(db.accounts, AccountOwner, id),
       Without(db.verifications, VerificationOwner, id))
  }

  function Apply(db: Db, c: Call): Db {
    match c
    case CreateUser(u) => if u.email in db.byEmail then db else AddUser(db, u)
    case UpdateUser(u) => if u.id in db.users then ReplaceUser(db, u) else db
    case DeleteUser(id) => if id in db.users then RemoveUser(db, id) else db
    case CreateSession(s) => db.(sessions := db.sessions[s.token := s])
    case RefreshSession(t, e, now) =>
      if t in db.sessions then db.(sessions := db.sessions[t := db.sessions[t].(expiresAt := e, updatedAt := now)])
      else db
    case RevokeSession(t) => db.(sessions := db.sessions - {t})
    case RevokeAllSessions(id) => db.(sessions := Without(db.sessions, SessionOwner, id))
    case CreateAccount(a) => db.(accounts := db.accounts[a.id := a])
    case UnlinkAccount(id) => db.(accounts := db.accounts - {id})
    case CreateVerification(v) => db.(verifications := db.verifications[v.token := v])
    case ConsumeVerification(t) => db.(verifications := db.verifications - {t})
  }

  /** What a call reports. */
  function Report(db: Db, c: Call): Outcome {
    match c
    case CreateUser(u) => if u.email in db.byEmail then Conflict else Done
    case UpdateUser(u) => if u.id in db.users then Done else NotFound
    case DeleteUser(id) => if id in db.users then Done else NotFound
    case RefreshSession(t, _, _) => if t in db.sessions then Done else NotFound
    case UnlinkAccount(id) => if id in db.accounts then Done else NotFound
    case ConsumeVerification(t) => if t in db.verifications then Done else NotFound
    case _ => Done
  }

  function FindByID(db: Db, id: string): Lookup<User> {
    if id in db.users then Hit(db.users[id]) else Missing
  }

  function FindByEmail(db: Db, email: string): Lookup<User> {
    if email !in db.byEmail then Missing
    else if db.byEmail[email] !in db.users then NilPointer
    else Hit(db.users[db.byEmail[email]])
  }

  function FindSession(db: Db, token: string, now: int): Lookup<Session> {
    if token !in db.sessions then Missing
    else if now > db.sessions[token].expiresAt then Expired
    else Hit(db.sessions[token])
  }

  // ------------------------------------------------------------- the cascade

  /** Exactly the rows that are not this user's are left, as they were. */
  ghost predicate LeavesOthers<T>(before: map<string, T>, after: map<string, T>, owner: T -> string, id: string) {
    && (forall k :: k in after <==> k in before && owner(before[k]) != id)
    && (forall k :: k in after ==> after[k] == before[k])
  }

  /** Deleting a user: their record, their email and all their rows go, and nothing of anybody else's. */
  lemma DeleteLeaves(db: Db, id: string)
    requires id in db.users
    ensures var next := Apply(db, DeleteUser(id));
      && (forall k :: k in next.users <==> k in db.users && k != id)
      && (forall k :: k in next.users ==> next.users[k] == db.users[k])
      && (forall e :: e in next.byEmail <==> e in db.byEmail && e != db.users[id].email)
      && (forall e :: e in next.byEmail ==> next.byEmail[e] == db.byEmail[e])
      && LeavesOthers(db.sessions, next.sessions, (s: Session) => s.userId, id)
      && LeavesOthers(db.accounts, next.accounts, (a: Account) => a.userId, id)
      && LeavesOthers(db.verifications, next.verifications, (v: Verification) => v.userId, id)
  {
  }

  /** Revoking all sessions of a user: exactly theirs go, and nothing else changes. */
  lemma RevokeLeaves(db: Db, id: string)
    ensures var next := Apply(db, RevokeAllSessions(id));
      && LeavesOthers(db.sessions, next.sessions, (s: Session) => s.userId, id)
      && next == db.(sessions := next.sessions)
  {
  }

  // -------------------------------------------------------------- the index

  predicate Points(db: Db, email: string) {
    email in db.byEmail ==> db.byEmail[email] in db.users && db.users[db.byEmail[email]].email == email
  }

  predicate Listed(db: Db, id: string) {
    id in db.users ==> db.users[id].email in db.byEmail && db.byEmail[db.users[id].email] == id
  }

  /** usersByEmail is exactly the inverse of users by Email. */
  ghost predicate Indexed(db: Db) {
    (forall e :: Points(db, e)) && (forall id :: Listed(db, id))
  }

  /** What a caller has to look at before the call: a new ID to create, a free email to move to. */
  predicate Careful(db: Db, c: Call) {
    match c
    case CreateUser(u) => u.email in db.byEmail || u.id !in db.users
    case UpdateUser(u) => u.id !in db.users || db.users[u.id].email == u.email || u.email !in db.byEmail
    case _ => true
  }

  lemma AddKeepsIndex(db: Db, u: User)
    requires Indexed(db) && u.email !in db.byEmail
    ensures Indexed(AddUser(db, u)) <==> u.id !in db.users
  {
    var next := AddUser(db, u);
    if u.id !in db.users {
      forall e ensures Points(next, e) {
        assert Points(db, e);
      }
      forall id ensures Listed(next, id) {
        assert Listed(db, id);
      }
    } else {
      assert Listed(db, u.id);
      assert !Points(next, db.users[u.id].email);
    }
  }

  lemma ReplaceKeepsIndex(db: Db, u: User)
    requires Indexed(db) && u.id in db.users
    ensures Indexed(ReplaceUser(db, u)) <==> db.users[u.id].email == u.email || u.email !in db.byEmail
  {
    var next := ReplaceUser(db, u);
    assert Listed(db, u.id);
    if db.users[u.id].email == u.email || u.email !in db.byEmail {
      forall e ensures Points(next, e) {
        assert Points(db, e);
      }
      forall id ensures Listed(next, id) {
        assert Listed(db, id);
      }
    } else {
      assert Points(db, u.email);
      assert !Listed(next, db.byEmail[u.email]);
    }
  }

  lemma RemoveKeepsIndex(db: Db, id: string)
    requires Indexed(db) && id in db.users
    ensures Indexed(RemoveUser(db, id))
  {
    var next := RemoveUser(db, id);
    assert Listed(db, id);
    forall e ensures Points(next, e) {
      assert Points(db, e);
    }
    forall k ensures Listed(next, k) {
      assert Listed(db, k);
    }
  }

  lemma SameIndex(db: Db, next: Db)
    requires Indexed(db) && next.users == db.users && next.byEmail == db.byEmail
    ensures Indexed(next)
  {
    forall e ensures Points(next, e) {
      assert Points(db, e);
    }
    forall k ensures Listed(next, k) {
      assert Listed(db, k);
    }
  }

  /** A call keeps the index right if and only if it was a careful one. */
  lemma CallKeepsIndex(db: Db, c: Call)
    requires Indexed(db)
    ensures Indexed(Apply(db, c)) <==> Careful(db, c)
  {
    match c
    case CreateUser(u) => if u.email !in db.byEmail { AddKeepsIndex(db, u); }
    case UpdateUser(u) => if u.id in db.users { ReplaceKeepsIndex(db, u); }
    case DeleteUser(id) => if id in db.users { RemoveKeepsIndex(db, id); }
    case _ => SameIndex(db, Apply(db, c));
  }

  // ------------------------------------------------------------------ histories

  function Run(calls: seq<Call>): Db {
    if |calls| == 0 then EMPTY else Apply(Run(calls[..|calls| - 1]), calls[|calls| - 1])
  }

  predicate AllCareful(calls: seq<Call>) {
    |calls| == 0 || (AllCareful(calls[..|calls| - 1]) && Careful(Run(calls[..|calls| - 1]), calls[|calls| - 1]))
  }

  ghost predicate AlwaysIndexed(calls: seq<Call>) {
    Indexed(Run(calls)) && (|calls| > 0 ==> AlwaysIndexed(calls[..|calls| - 1]))
  }

  /** In every state of a history the index is right, if and only if every call was careful. */
  lemma {:induction false} IndexedExactly(calls: seq<Call>)
    ensures AlwaysIndexed(calls) <==> AllCareful(calls)
  {
    if |calls| > 0 {
      var before := calls[..|calls| - 1];
      IndexedExactly(before);
      if Indexed(Run(before)) {
        CallKeepsIndex(Run(before), calls[|calls| - 1]);
      }
    }
  }

  // ------------------------------------------------------------- linear search

  /** The first user with the email, going through the users in some order. */
  function LinearSearch(users: map<string, User>, order: seq<string>, email: string): Lookup<User> {
    if |order| == 0 then Missing
    else if order[0] in users && users[order[0]].email == email then Hit(users[order[0]])
    else LinearSearch(users, order[1..], email)
  }

  lemma {:induction false} SearchHits(db: Db, order: seq<string>, email: string)
    requires Indexed(db) && email in db.byEmail && db.byEmail[email] in order
    ensures LinearSearch(db.users, order, email) == FindByEmail(db, email)
  {
    assert Points(db, email);
    if order[0] in db.users && db.users[order[0]].email == email {
      assert Listed(db, order[0]);
    } else {
      SearchHits(db, order[1..], email);
    }
  }

  lemma {:induction false} SearchMisses(db: Db, order: seq<string>, email: string)
    requires Indexed(db) && email !in db.byEmail
    ensures LinearSearch(db.users, order, email) == Missing
  {
    if |order| > 0 {
      assert Listed(db, order[0]);
      SearchMisses(db, order[1..], email);
    }
  }

  /** Looking an email up in the index is searching the users one by one, in any order. */
  lemma LookupIsLinearSearch(db: Db, order: seq<string>, email: string)
    requires Indexed(db) && forall id :: id in db.users ==> id in order
    ensures FindByEmail(db, email) == LinearSearch(db.users, order, email)
  {
    if email in db.byEmail {
      assert Points(db, email);
      SearchHits(db, order, email);
    } else {
      SearchMisses(db, order, email);
    }
  }

  // ----------------------------------------------- what careless callers can do

  /** The same ID created twice, then deleted: the first email still leads to it, and looking it up fails. */
  lemma DanglingEmail(id: string, first: string, second: string, profile: string)
    requires first != second
    ensures var calls := [CreateUser(User(id, first, profile)), CreateUser(User(id, second, profile)), DeleteUser(id)];
      FindByEmail(Run(calls), first) == NilPointer
  {
    var u, v := User(id, first, profile), User(id, second, profile);
    var calls := [CreateUser(u), CreateUser(v), DeleteUser(id)];
    assert calls[..2] == [CreateUser(u), CreateUser(v)] && calls[..2][..1] == [CreateUser(u)];
    assert [CreateUser(u)][..0] == [];
    assert Run([CreateUser(u)]) == AddUser(EMPTY, u);
    assert Run(calls[..2]) == AddUser(AddUser(EMPTY, u), v);
  }

  /** One user moved to another's email: the other is no longer found by it, and has no entry of their own. */
  lemma StolenEmail(u: User, v: User)
    requires u.id != v.id && u.email != v.email
    ensures var calls := [CreateUser(u), CreateUser(v), UpdateUser(User(u.id, v.email, u.profile))];
      var db := Run(calls);
      v.id in db.users && db.users[v.id] == v && FindByEmail(db, v.email) == Hit(User(u.id, v.email, u.profile))
  {
    var w := User(u.id, v.email, u.profile);
    var calls := [CreateUser(u), CreateUser(v), UpdateUser(w)];
    assert calls[..2] == [CreateUser(u), CreateUser(v)] && calls[..2][..1] == [CreateUser(u)];
    assert [CreateUser(u)][..0] == [];
    assert Run([CreateUser(u)]) == AddUser(EMPTY, u);
    assert Run(calls[..2]) == AddUser(AddUser(EMPTY, u), v);
  }

  // ------------------------------------------------------------------ the store

  /** A struct behind a pointer. */
  class Ref<T> {
    var v: T

    constructor (v: T)
      ensures this.v == v
    {
      this.v := v;
    }
  }

  /** A table of pointers holds exactly these records. */
  ghost predicate Mirrors<T>(m: map<string, Ref<T>>, d: map<string, T>)
    reads m.Values
  {
    m.Keys == d.Keys && forall k :: k in m ==> m[k].v == d[k]
  }

  /** No two keys share a pointer. */
  ghost predicate Unshared<T>(m: map<string, Ref<T>>) {
    forall j, k :: j in m && k in m && m[j] == m[k] ==> j == k
  }

  /** A private copy, stored under a key. */
  method StoreCopy<T>(m: map<string, Ref<T>>, ghost d: map<string, T>, k: string, r: Ref<T>)
    returns (c: Ref<T>, m': map<string, Ref<T>>)
    requires Mirrors(m, d)
    ensures fresh(c) && m' == m[k := c] && Mirrors(m', d[k := r.v])
    ensures Unshared(m) ==> Unshared(m')
  {
    c := new Ref(r.v);
    m' := m[k := c];
  }

  /** The deletion loop: the rows of one user go, the others stay as they are. */
  method DropOwned<T>(m: map<string, Ref<T>>, ghost d: map<string, T>, owner: T -> string, id: string)
    returns (m': map<string, Ref<T>>)
    requires Mirrors(m, d)
    ensures Mirrors(m', Without(d, owner, id))
    ensures forall k :: k in m' <==> k in m && owner(m[k].v) != id
    ensures m'.Keys <= m.Keys && forall k :: k in m' ==> m'[k] == m[k]
  {
    m' := m;
    var todo := m.Keys;
    while todo != {}
      invariant todo <= m.Keys && m'.Keys <= m.Keys
      invariant forall k :: k in m' ==> m'[k] == m[k]
      invariant forall k :: k in m ==> (k in m' <==> k in todo || owner(m[k].v) != id)
      decreases |todo|
    {
      var token :| token in todo;
      if owner(m[token].v) == id {
        m' := m' - {token};
      }
      todo := todo - {token};
    }
  }

  class Store {
    var users: map<string, Ref<User>>
    var usersByEmail: map<string, string>
    var sessions: map<string, Ref<Session>>
    var accounts: map<string, Ref<Account>>
    var verifications: map<string, Ref<Verification>>
    ghost var db: Db

    ghost predicate Valid()
      reads this, users.Values, sessions.Values, accounts.Values, verifications.Values
    {
      && Mirrors(users, db.users)
      && usersByEmail == db.byEmail
      && Mirrors(sessions, db.sessions)
      && Mirrors(accounts, db.accounts)
      && Mirrors(verifications, db.verifications)
      && Unshared(sessions)
    }

    constructor ()
      ensures Valid() && db == EMPTY
    {
      users, usersByEmail, sessions, accounts, verifications := map[], map[], map[], map[], map[];
      db := EMPTY;
    }

    /** A private copy of the user enters the table, and the index is replaced. */
    method PutUser(u: Ref<User>, index: map<string, string>)
      requires Valid()
      modifies `users, `usersByEmail, `db
      ensures Valid() && db == old(db).(users := old(db).users[u.v.id := u.v], byEmail := index)
      ensures u.v.id in users && fresh(users[u.v.id]) && users == old(users)[u.v.id := users[u.v.id]]
    {
      CopyUser(u);
      usersByEmail := index;
      db := db.(byEmail := index);
    }

    method CopyUser(u: Ref<User>)
      requires Valid()
      modifies `users, `db
      ensures Valid() && db == old(db).(users := old(db).users[u.v.id := u.v])
      ensures u.v.id in users && fresh(users[u.v.id]) && users == old(users)[u.v.id := users[u.v.id]]
    {
      var clone;
      clone, users := StoreCopy(users, db.users, u.v.id, u);
      db := db.(users := db.users[u.v.id := u.v]);
    }

    method CreateUser(u: Ref<User>) returns (out: Outcome)
      requires Valid()
      modifies `users, `usersByEmail, `db
      ensures Valid() && db == Apply(old(db), Call.CreateUser(u.v)) && out == Report(old(db), Call.CreateUser(u.v))
      ensures out == Done ==> fresh(users[u.v.id]) && users == old(users)[u.v.id := users[u.v.id]]
      ensures out != Done ==> users == old(users)
    {
      if u.v.email in usersByEmail {
        return Conflict;
      }
      PutUser(u, usersByEmail[u.v.email := u.v.id]);
      return Done;
    }

    /** A fresh copy of what is stored, or why there is none. */
    method UserByID(id: string) returns (r: Lookup<Ref<User>>)
      requires Valid()
      ensures Answers(r, FindByID(db, id))
      ensures r.Hit? ==> fresh(r.value)
    {
      if id !in users {
        return Missing;
      }
      var clone := new Ref(users[id].v);
      return Hit(clone);
    }

    method UserByEmail(email: string) returns (r: Lookup<Ref<User>>)
      requires Valid()
      ensures Answers(r, FindByEmail(db, email))
      ensures r.Hit? ==> fresh(r.value)
    {
      if email !in usersByEmail {
        return Missing;
      }
      var id := usersByEmail[email];
      if id !in users {
        return NilPointer;
      }
      var clone := new Ref(users[id].v);
      return Hit(clone);
    }

    method UpdateUser(u: Ref<User>) returns (out: Outcome)
      requires Valid()
      modifies `users, `usersByEmail, `db
      ensures Valid() && db == Apply(old(db), Call.UpdateUser(u.v)) && out == Report(old(db), Call.UpdateUser(u.v))
      ensures out == Done ==> fresh(users[u.v.id]) && users == old(users)[u.v.id := users[u.v.id]]
      ensures out != Done ==> users == old(users)
    {
      if u.v.id !in users {
        return NotFound;
      }
      var index := Reindexed(users[u.v.id].v.email, u.v);
      PutUser(u, index);
      return Done;
    }

    /** The email index once a user with this email has become u. */
    method Reindexed(was: string, u: User) returns (index: map<string, string>)
      ensures index == if was == u.email then usersByEmail else (usersByEmail - {was})[u.email := u.id]
    {
      index := usersByEmail;
      if was != u.email {
        index := index - {was};
        index := index[u.email := u.id];
      }
    }

    method DeleteUser(id: string) returns (out: Outcome)
      requires Valid()
      modifies this
      ensures Valid() && db == Apply(old(db), Call.DeleteUser(id)) && out == Report(old(db), Call.DeleteUser(id))
    {
      if id !in users {
        return NotFound;
      }
      DropUser(id);
      DropSessions(id);
      DropAccounts(id);
      DropVerifications(id);
      return Done;
    }

    method DropSessions(id: string)
      requires Valid()
      modifies `sessions, `db
      ensures Valid() && db == old(db).(sessions := Without(old(db).sessions, SessionOwner, id))
    {
      sessions := DropOwned(sessions, db.sessions, SessionOwner, id);
      db := db.(sessions := Without(db.sessions, SessionOwner, id));
    }

    method DropAccounts(id: string)
      requires Valid()
      modifies `accounts, `db
      ensures Valid() && db == old(db).(accounts := Without(old(db).accounts, AccountOwner, id))
    {
      accounts := DropOwned(accounts, db.accounts, AccountOwner, id);
      db := db.(accounts := Without(db.accounts, AccountOwner, id));
    }

    method DropVerifications(id: string)
      requires Valid()
      modifies `verifications, `db
      ensures Valid() && db == old(db).(verifications := Without(old(db).verifications, VerificationOwner, id))
    {
      verifications := DropOwned(verifications, db.verifications, VerificationOwner, id);
      db := db.(verifications := Without(db.verifications, VerificationOwner, id));
    }

    /** The user's own rows: the record and the index entry. */
    method DropUser(id: string)
      requires Valid() && id in users
      modifies `users, `usersByEmail, `db
      ensures Valid()
      ensures db == old(db).(users := old(db).users - {id}, byEmail := old(db).byEmail - {old(db).users[id].email})
    {
      usersByEmail := usersByEmail - {users[id].v.email};
      users := users - {id};
      db := db.(users := db.users - {id}, byEmail := usersByEmail);
    }

    method CreateSession(s: Ref<Session>)
      requires Valid()
      modifies this
      ensures Valid() && db == Apply(old(db), Call.CreateSession(s.v))
      ensures fresh(sessions[s.v.token]) && sessions == old(sessions)[s.v.token := sessions[s.v.token]]
      ensures unchanged(`users)
    {
      var clone;
      clone, sessions := StoreCopy(sessions, db.sessions, s.v.token, s);
      db := Apply(db, Call.CreateSession(s.v));
    }

    method SessionByToken(token: string, now: int) returns (r: Lookup<Ref<Session>>)
      requires Valid()
      ensures Answers(r, FindSession(db, token, now))
      ensures r.Hit? ==> fresh(r.value)
    {
      if token !in sessions {
        return Missing;
      }
      var sess := sessions[token];
      if now > sess.v.expiresAt {
        return Expired;
      }
      var clone := new Ref(sess.v);
      return Hit(clone);
    }

    /** Writes through the stored pointer. */
    method RefreshSession(token: string, expiry: int, now: int) returns (out: Outcome)
      requires Valid()
      modifies this`db, sessions.Values
      ensures Valid() && db == Apply(old(db), Call.RefreshSession(token, expiry, now))
      ensures out == Report(old(db), Call.RefreshSession(token, expiry, now))
    {
      if token !in sessions {
        return NotFound;
      }
      var sess := sessions[token];
      sess.v := sess.v.(expiresAt := expiry);
      sess.v := sess.v.(updatedAt := now);
      db := Apply(db, Call.RefreshSession(token, expiry, now));
      return Done;
    }

    method RevokeSession(token: string)
      requires Valid()
      modifies this`sessions, this`db
      ensures Valid() && db == Apply(old(db), Call.RevokeSession(token))
    {
      sessions := sessions - {token};
      db := Apply(db, Call.RevokeSession(token));
    }

    method RevokeAllSessions(id: string)
      requires Valid()
      modifies this`sessions, this`db
      ensures Valid() && db == Apply(old(db), Call.RevokeAllSessions(id))
    {
      DropSessions(id);
    }
  }

  /** A pointer answer carries the value answer. */
  ghost predicate Answers<T>(r: Lookup<Ref<T>>, l: Lookup<T>)
    reads if r.Hit? then {r.value} else {}
  {
    match r
    case Hit(ref) => l == Hit(ref.v)
    case Missing => l == Missing
    case Expired => l == Expired
    case NilPointer => l == NilPointer
  }

  /** Writing through a pointer the store does not hold. */
  method WriteUser(s: Store, u: Ref<User>, junk: User)
    requires s.Valid() && u !in s.users.Values
    modifies u
    ensures s.Valid()
  {
    u.v := junk;
  }

  /** Writing to the user handed in, and to the user handed out, changes nothing in the store. */
  method ScribbleOnUsers(s: Store, u: Ref<User>, junk: User)
    requires s.Valid() && u !in s.users.Values
    modifies s, u
    ensures s.Valid() && s.db == Apply(old(s.db), Call.CreateUser(old(u.v)))
  {
    var out := s.CreateUser(u);
    WriteUser(s, u, junk);
    var got := s.UserByID(junk.id);
    if got.Hit? {
      WriteUser(s, got.value, junk);
    }
  }

  method WriteSession(s: Store, sess: Ref<Session>, junk: Session)
    requires s.Valid() && sess !in s.sessions.Values
    modifies sess
    ensures s.Valid()
  {
    sess.v := junk;
  }

  /** The same for sessions. */
  method ScribbleOnSessions(s: Store, sess: Ref<Session>, junk: Session, now: int)
    requires s.Valid() && sess !in s.sessions.Values
    modifies s, sess
    ensures s.Valid() && s.db == Apply(old(s.db), Call.CreateSession(old(sess.v)))
  {
    s.CreateSession(sess);
    WriteSession(s, sess, junk);
    var got := s.SessionByToken(junk.token, now);
    if got.Hit? {
      WriteSession(s, got.value, junk);
    }
  }
}
