/**
 * The in-memory record store: the `users` and `transactions` lists and the
 * operations that register, log in, add, delete and update. Each write is
 * followed by a save of the whole list to its file; the ghost fields
 * `savedUsers` and `savedTransactions` stand for the files' contents.
 */
module Ledger {
  import opened Wrappers
  import opened Records
  import opened Lists
  import opened Query

  const EmailExists: string := "Email already exists!"
  const RegistrationSuccessful: string := "Registration successful!"
  const InvalidLogin: string := "Invalid email or password"
  const TransactionAdded: string := "Transaction added successfully!"
  const TransactionDeleted: string := "Transaction deleted!"
  const TransactionUpdated: string := "Transaction updated!"
  const TransactionNotFound: string := "Transaction not found"

  /** `any(u['email'] == email for u in users)` */
  predicate EmailTaken(us: seq<User>, email: string) {
    exists k :: 0 <= k < |us| && us[k].email == email
  }

  predicate DistinctEmails(us: seq<User>) {
    forall i, j :: 0 <= i < j < |us| ==> us[i].email != us[j].email
  }

  /** `u` has the email and its stored hash accepts the password. */
  predicate Accepts(u: User, email: string, password: string, checks: (string, string) -> bool) {
    u.email == email && checks(password, u.passwordHash)
  }

  /** What `login_user` returns: the first user, in list order, that accepts the credentials. */
  function FindLogin(us: seq<User>, email: string, password: string, checks: (string, string) -> bool): (r: Result<User, string>)
    ensures r.Ok? ==> exists k :: 0 <= k < |us| && us[k] == r.value && Accepts(us[k], email, password, checks)
                                  && forall j :: 0 <= j < k ==> !Accepts(us[j], email, password, checks)
    ensures r.Err? <==> forall u :: u in us ==> !Accepts(u, email, password, checks)
    ensures r.Err? ==> r.error == InvalidLogin
  {
    match FirstIndex(us, (u: User) => Accepts(u, email, password, checks))
    case Some(k) => Ok(us[k])
    case None => Err(InvalidLogin)
  }

  /** The list `delete_transaction` leaves: every record whose id differs from `id`. */
  function WithoutId(ts: seq<Transaction>, id: string): (r: seq<Transaction>)
    ensures forall t :: t in r <==> t in ts && t.id != id
    ensures forall t: Transaction :: t.id != id ==> multiset(r)[t] == multiset(ts)[t]
  {
    FilterCount(ts, (t: Transaction) => t.id != id);
    Filter(ts, (t: Transaction) => t.id != id)
  }

  /** Position `j` holds the first record with id `id`. */
  predicate IsFirstWithId(ts: seq<Transaction>, id: string, j: nat)
    requires j < |ts|
  {
    ts[j].id == id && forall i :: 0 <= i < j ==> ts[i].id != id
  }

  /** The list `update_transaction` leaves: the first record with id `id` merged with `p`. */
  function UpdateFirst(ts: seq<Transaction>, id: string, p: Patch): (r: seq<Transaction>)
    ensures |r| == |ts|
    ensures forall j :: 0 <= j < |ts| ==> r[j] == if IsFirstWithId(ts, id, j) then Merge(ts[j], p) else ts[j]
    ensures (forall t :: t in ts ==> t.id != id) ==> r == ts
  {
    match FirstIndex(ts, (t: Transaction) => t.id == id)
    case Some(k) => ts[k := Merge(ts[k], p)]
    case None => ts
  }

  class Store {
    var users: seq<User>
    var transactions: seq<Transaction>
    ghost var savedUsers: seq<User>
    ghost var savedTransactions: seq<Transaction>

    /** The store as loaded from the two files at start-up. */
    constructor (loadedUsers: seq<User>, loadedTransactions: seq<Transaction>)
      ensures users == savedUsers == loadedUsers
      ensures transactions == savedTransactions == loadedTransactions
    {
      users, savedUsers := loadedUsers, loadedUsers;
      transactions, savedTransactions := loadedTransactions, loadedTransactions;
    }

    /** `register_user`, with the new id and the stored password hash supplied by the caller. */
    method RegisterUser(id: string, name: string, email: string, passwordHash: string) returns (ok: bool, message: string)
      modifies this`users, this`savedUsers
      ensures ok <==> !EmailTaken(old(users), email)
      ensures ok ==> users == old(users) + [User(id, name, email, passwordHash)]
                     && savedUsers == users && message == RegistrationSuccessful
      ensures !ok ==> users == old(users) && savedUsers == old(savedUsers) && message == EmailExists
      ensures DistinctEmails(old(users)) ==> DistinctEmails(users)
    {
      if EmailTaken(users, email) {
        return false, EmailExists;
      }
      RegisterKeepsEmailsDistinct(users, User(id, name, email, passwordHash));
      users := users + [User(id, name, email, passwordHash)];
      savedUsers := users;
      return true, RegistrationSuccessful;
    }

    /** `login_user`: scans the users in order for one that accepts the credentials. */
    method LoginUser(email: string, password: string, checks: (string, string) -> bool) returns (r: Result<User, string>)
      ensures r == FindLogin(users, email, password, checks)
    {
      var i := 0;
      while i < |users|
        invariant 0 <= i <= |users|
        invariant forall j :: 0 <= j < i ==> !Accepts(users[j], email, password, checks)
      {
        if users[i].email == email {
          if checks(password, users[i].passwordHash) {
            return Ok(users[i]);
          }
        }
        i := i + 1;
      }
      return Err(InvalidLogin);
    }

    /** `add_transaction`, with the new id supplied by the caller. */
    method AddTransaction(id: string, userId: string, amount: real, kind: string, category: string,
                          reference: string, description: string, date: int)
      returns (ok: bool, message: string)
      modifies this`transactions, this`savedTransactions
      ensures ok && message == TransactionAdded
      ensures transactions == old(transactions) + [Transaction(id, userId, amount, kind, category, reference, description, date)]
      ensures savedTransactions == transactions
    {
      transactions := transactions + [Transaction(id, userId, amount, kind, category, reference, description, date)];
      savedTransactions := transactions;
      return true, TransactionAdded;
    }

    /** `delete_transaction`: succeeds whether or not a record had that id. */
    method DeleteTransaction(id: string) returns (ok: bool, message: string)
      modifies this`transactions, this`savedTransactions
      ensures ok && message == TransactionDeleted
      ensures transactions == WithoutId(old(transactions), id)
      ensures savedTransactions == transactions
    {
      transactions := WithoutId(transactions, id);
      savedTransactions := transactions;
      return true, TransactionDeleted;
    }

    /** `update_transaction`: merges `updates` into the first record with that id, if there is one. */
    method UpdateTransaction(id: string, updates: Patch) returns (ok: bool, message: string)
      modifies this`transactions, this`savedTransactions
      ensures ok <==> exists t :: t in old(transactions) && t.id == id
      ensures transactions == UpdateFirst(old(transactions), id, updates)
      ensures ok ==> savedTransactions == transactions && message == TransactionUpdated
      ensures !ok ==> transactions == old(transactions) && savedTransactions == old(savedTransactions)
                      && message == TransactionNotFound
    {
      var i := 0;
      while i < |transactions|
        invariant 0 <= i <= |transactions|
        invariant transactions == old(transactions)
        invariant forall j :: 0 <= j < i ==> transactions[j].id != id
      {
        if transactions[i].id == id {
          transactions := transactions[i := Merge(transactions[i], updates)];
          savedTransactions := transactions;
          return true, TransactionUpdated;
        }
        i := i + 1;
      }
      return false, TransactionNotFound;
    }
  }

  /**
   * After a user is appended, an email is taken exactly when it was taken before or is
   * the new user's; so a second registration under the same email is refused.
   */
  lemma EmailTakenAfterAppend(us: seq<User>, u: User, email: string)
    ensures EmailTaken(us + [u], email) <==> EmailTaken(us, email) || u.email == email
  {
    if EmailTaken(us, email) {
      var k :| 0 <= k < |us| && us[k].email == email;
      assert (us + [u])[k] == us[k];
    }
    assert (us + [u])[|us|] == u;
  }

  /** Registering an unused email keeps the emails pairwise distinct. */
  lemma RegisterKeepsEmailsDistinct(us: seq<User>, u: User)
    requires !EmailTaken(us, u.email)
    ensures DistinctEmails(us) ==> DistinctEmails(us + [u])
  {
  }

  /** Logging in against a list extended by one user finds the old match, or else the new user. */
  lemma LoginAfterAppend(us: seq<User>, u: User, email: string, password: string, checks: (string, string) -> bool)
    ensures FindLogin(us + [u], email, password, checks) ==
      if FindLogin(us, email, password, checks).Ok? then FindLogin(us, email, password, checks)
      else if Accepts(u, email, password, checks) then Ok(u)
      else Err(InvalidLogin)
  {
    var accepts := (v: User) => Accepts(v, email, password, checks);
    FirstIndexAppend(us, u, accepts);
    match FirstIndex(us, accepts)
    case Some(k) =>
      assert (us + [u])[k] == us[k];
    case None =>
      assert (us + [u])[|us|] == u;
  }

  /**
   * A user registered under an unused email, whose stored hash accepts the password,
   * can then log in with that email and password, and the login returns that user.
   */
  lemma LoginAfterRegister(us: seq<User>, u: User, password: string, checks: (string, string) -> bool)
    requires !EmailTaken(us, u.email)
    requires checks(password, u.passwordHash)
    ensures FindLogin(us + [u], u.email, password, checks) == Ok(u)
  {
    LoginAfterAppend(us, u, u.email, password, checks);
  }

  /** Deleting twice by the same id is deleting once. */
  lemma DeleteIdempotent(ts: seq<Transaction>, id: string)
    ensures WithoutId(WithoutId(ts, id), id) == WithoutId(ts, id)
  {
    FilterIdempotent(ts, (t: Transaction) => t.id != id);
  }

  /** Deleting keeps the other records in their relative order: it acts on each part of a split list separately. */
  lemma DeleteKeepsOrder(a: seq<Transaction>, b: seq<Transaction>, id: string)
    ensures WithoutId(a + b, id) == WithoutId(a, id) + WithoutId(b, id)
  {
    FilterConcat(a, b, (t: Transaction) => t.id != id);
  }

  /** Deleting an id no record carries leaves the list as it was. */
  lemma DeleteMissingId(ts: seq<Transaction>, id: string)
    requires forall t :: t in ts ==> t.id != id
    ensures WithoutId(ts, id) == ts
  {
    FilterKeepsAll(ts, (t: Transaction) => t.id != id);
  }

  /** Adding a record for one user leaves every listing of every other user as it was. */
  lemma AddLeavesOtherListings(ts: seq<Transaction>, t: Transaction, userId: string, typeFilter: string, w: Window)
    requires t.userId != userId
    ensures GetTransactions(ts + [t], userId, typeFilter, w) == GetTransactions(ts, userId, typeFilter, w)
  {
    var matches := (x: Transaction) => Matches(x, userId, typeFilter, w);
    SelectedIsOneFilter(ts + [t], userId, typeFilter, w);
    SelectedIsOneFilter(ts, userId, typeFilter, w);
    FilterConcat(ts, [t], matches);
    assert Filter([t], matches) == [];
    assert Filter(ts, matches) + [] == Filter(ts, matches);
  }

  /** A record just added is listed for its owner exactly when it passes the type and date filters. */
  lemma AddedIsListed(ts: seq<Transaction>, t: Transaction, typeFilter: string, w: Window)
    ensures t in GetTransactions(ts + [t], t.userId, typeFilter, w) <==>
      (typeFilter == AllTypes || t.kind == typeFilter) && DateAccepted(t.date, w)
  {
  }
}
