/**
  The `add_transaction(p_user_id, p_amount, p_type, p_description)` stored
  procedure of app/api/setup/init-db/route.ts: one INSERT into
  `transactions`, then an UPDATE of the owner's `balance` and
  `total_earned`.  The procedure runs as one statement, so any error rolls
  back both writes.
*/
module Ledger {
  import opened Wrappers
  import opened Schema

  /** What the UPDATE does to one row: the balance moves by the amount, the lifetime total only by a positive one. */
  function CreditRow(u: User, amount: int): User {
    u.(balance := u.balance + amount, totalEarned := u.totalEarned + (if amount > 0 then amount else 0))
  }

  /** `UPDATE users SET ... WHERE id = p_user_id`. */
  function CreditRows(users: seq<User>, id: UserId, amount: int): (r: seq<User>)
    ensures |r| == |users|
  {
    seq(|users|, i requires 0 <= i < |users| => if users[i].id == id then CreditRow(users[i], amount) else users[i])
  }

  /** The updated rows still fit `decimal(10, 2)`. */
  predicate CreditFits(users: seq<User>, id: UserId, amount: int) {
    forall i :: 0 <= i < |users| && users[i].id == id ==>
      FitsDecimal(CreditRow(users[i], amount).balance) && FitsDecimal(CreditRow(users[i], amount).totalEarned)
  }

  /**
    `add_transaction`, as seen from the tables: the new state, or the error
    that rolled it back.  The INSERT coerces `p_amount` to `decimal(10, 2)`
    before it checks the row, then it checks the `type` CHECK, and its
    foreign key at the end of the statement; the UPDATE overflows last.
  */
  function AddTransaction(db: Db, userId: UserId, amount: int, typeName: string, description: Option<string>): Result<Db, DbError> {
    if !FitsDecimal(amount) then Failure(NumericOverflow("amount"))
    else match ParseTxType(typeName)
      case None => Failure(CheckViolation("transactions", "transactions_type_check"))
      case Some(t) =>
        if !HasUser(db.users, userId) then Failure(ForeignKeyViolation("transactions", "transactions_user_id_fkey"))
        else if !CreditFits(db.users, userId, amount) then Failure(NumericOverflow("balance"))
        else Success(Db(CreditRows(db.users, userId, amount), db.transactions + [Transaction(userId, amount, t, description)]))
  }

  /**
    The procedure succeeds exactly when the amount fits, the type is one of
    the four, the user exists and the new balance and total fit.  An amount
    that does not fit is reported before anything else, and an unknown type
    before a missing user.
  */
  lemma AddTransactionOutcome(db: Db, userId: UserId, amount: int, typeName: string, description: Option<string>)
    ensures AddTransaction(db, userId, amount, typeName, description).Success? <==>
      FitsDecimal(amount) && ParseTxType(typeName).Some? && HasUser(db.users, userId) && CreditFits(db.users, userId, amount)
    ensures !FitsDecimal(amount) ==>
      AddTransaction(db, userId, amount, typeName, description) == Failure(NumericOverflow("amount"))
    ensures FitsDecimal(amount) && ParseTxType(typeName).None? ==>
      AddTransaction(db, userId, amount, typeName, description) == Failure(CheckViolation("transactions", "transactions_type_check"))
    ensures FitsDecimal(amount) && ParseTxType(typeName).Some? && !HasUser(db.users, userId) ==>
      AddTransaction(db, userId, amount, typeName, description) == Failure(ForeignKeyViolation("transactions", "transactions_user_id_fkey"))
  {
  }

  /** On success exactly one ledger row is appended, carrying the given user, amount, type and description. */
  lemma AddTransactionAppends(db: Db, userId: UserId, amount: int, typeName: string, description: Option<string>)
    requires AddTransaction(db, userId, amount, typeName, description).Success?
    ensures var db' := AddTransaction(db, userId, amount, typeName, description).value;
      && |db'.transactions| == |db.transactions| + 1
      && db'.transactions[..|db.transactions|] == db.transactions
      && var t := db'.transactions[|db.transactions|];
         t.userId == userId && t.amount == amount && TxTypeName(t.txType) == typeName && t.description == description
  {
    var db' := AddTransaction(db, userId, amount, typeName, description).value;
    assert db'.transactions[..|db.transactions|] == db.transactions;
    ParseTxTypeIff(typeName, ParseTxType(typeName).value);
  }

  /**
    On success only the rows with `id = p_user_id` change, and in them only
    `balance` (by the amount) and `total_earned` (by the positive part of
    the amount): the lifetime total never decreases, while the balance may.
  */
  lemma AddTransactionCredits(db: Db, userId: UserId, amount: int, typeName: string, description: Option<string>)
    requires AddTransaction(db, userId, amount, typeName, description).Success?
    ensures var users' := AddTransaction(db, userId, amount, typeName, description).value.users;
      && |users'| == |db.users|
      && (forall i :: 0 <= i < |db.users| && db.users[i].id != userId ==> users'[i] == db.users[i])
      && (forall i :: 0 <= i < |db.users| && db.users[i].id == userId ==>
            && users'[i].balance == db.users[i].balance + amount
            && users'[i].totalEarned == db.users[i].totalEarned + (if amount > 0 then amount else 0)
            && users'[i] == db.users[i].(balance := users'[i].balance, totalEarned := users'[i].totalEarned))
      && (forall i :: 0 <= i < |db.users| ==> users'[i].totalEarned >= db.users[i].totalEarned)
  {
  }

  lemma CreditRowsHasUser(users: seq<User>, id: UserId, amount: int, x: UserId)
    ensures HasUser(CreditRows(users, id, amount), x) <==> HasUser(users, x)
  {
    var r := CreditRows(users, id, amount);
    if HasUser(users, x) {
      var i :| 0 <= i < |users| && users[i].id == x;
      assert r[i].id == x;
    }
    if HasUser(r, x) {
      var i :| 0 <= i < |r| && r[i].id == x;
      assert users[i].id == x;
    }
  }

  /** A row of another user, balance and total in range, does not change whether a credit fits. */
  lemma CreditFitsAppend(users: seq<User>, u: User, id: UserId, amount: int)
    requires u.id != id
    ensures CreditFits(users + [u], id, amount) <==> CreditFits(users, id, amount)
  {
    if CreditFits(users + [u], id, amount) {
      forall i | 0 <= i < |users| && users[i].id == id
        ensures FitsDecimal(CreditRow(users[i], amount).balance) && FitsDecimal(CreditRow(users[i], amount).totalEarned)
      {
        assert (users + [u])[i] == users[i];
      }
    }
  }

  /** A successful `add_transaction` keeps every table constraint. */
  lemma AddTransactionKeepsConstraints(db: Db, userId: UserId, amount: int, typeName: string, description: Option<string>)
    requires Constraints(db)
    requires AddTransaction(db, userId, amount, typeName, description).Success?
    ensures Constraints(AddTransaction(db, userId, amount, typeName, description).value)
  {
    var db' := AddTransaction(db, userId, amount, typeName, description).value;
    forall x ensures HasUser(db'.users, x) <==> HasUser(db.users, x) {
      CreditRowsHasUser(db.users, userId, amount, x);
    }
    forall k | 0 <= k < |db'.transactions|
      ensures HasUser(db'.users, db'.transactions[k].userId) && FitsDecimal(db'.transactions[k].amount)
    {
      if k < |db.transactions| { assert db'.transactions[k] == db.transactions[k]; }
    }
  }

  /** Every lifetime total is non-negative: true of the DEFAULT 0 and kept by every credit. */
  predicate EarningsNonNegative(users: seq<User>) {
    forall i :: 0 <= i < |users| ==> users[i].totalEarned >= 0
  }

  lemma AddTransactionKeepsEarnings(db: Db, userId: UserId, amount: int, typeName: string, description: Option<string>)
    requires EarningsNonNegative(db.users)
    requires AddTransaction(db, userId, amount, typeName, description).Success?
    ensures EarningsNonNegative(AddTransaction(db, userId, amount, typeName, description).value.users)
  {
  }

  lemma InsertUserKeepsEarnings(db: Db, n: NewUser, id: UserId)
    requires EarningsNonNegative(db.users)
    requires InsertUser(db, n, id).Success?
    ensures EarningsNonNegative(InsertUser(db, n, id).value.users)
  {
    var users' := InsertUser(db, n, id).value.users;
    forall i | 0 <= i < |users'| ensures users'[i].totalEarned >= 0 {
      if i < |db.users| { assert users'[i] == db.users[i]; }
    }
  }
}
