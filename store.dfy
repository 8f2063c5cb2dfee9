/**
  The two tables as one mutable store, with the two writes the core
  performs on them: an `INSERT INTO users` and the `add_transaction`
  procedure.  Each method is specified by the corresponding function of
  the Schema and Ledger modules, and keeps the table constraints.
*/
module Database {
  import opened Wrappers
  import opened Schema
  import Ledger

  class Store {
    var users: seq<User>
    var transactions: seq<Transaction>

    /** The tables as a value. */
    function State(): Db
      reads this
    {
      Db(users, transactions)
    }

    /** The constraints the database enforces, and the non-negative lifetime totals every credit keeps. */
    ghost predicate Valid()
      reads this
    {
      Constraints(State()) && Ledger.EarningsNonNegative(users)
    }

    /** Freshly migrated, empty tables. */
    constructor ()
      ensures State() == Db([], []) && Valid()
    {
      users, transactions := [], [];
    }

    /** `.from("users").insert(row).select().single()`: the created row, or the violated constraint. */
    method Insert(n: NewUser, id: UserId) returns (r: Result<User, DbError>)
      modifies this
      ensures match InsertUser(old(State()), n, id)
        case Success(db) => State() == db && r == Success(Created(n, id))
        case Failure(e) => State() == old(State()) && r == Failure(e)
      ensures old(Valid()) ==> Valid()
    {
      var outcome := InsertUser(State(), n, id);
      if outcome.Failure? {
        return Failure(outcome.error);
      }
      if Valid() {
        InsertUserKeepsConstraints(State(), n, id);
        Ledger.InsertUserKeepsEarnings(State(), n, id);
      }
      users := users + [Created(n, id)];
      r := Success(Created(n, id));
    }

    /**
      `supabase.rpc("add_transaction", ...)`: its `error`.  The INSERT
      appends the ledger row and the UPDATE walks the users table crediting
      every row whose id matches; a violated constraint aborts both.
    */
    method AddTransaction(userId: UserId, amount: int, typeName: string, description: Option<string>)
      returns (error: Option<DbError>)
      modifies this
      ensures match Ledger.AddTransaction(old(State()), userId, amount, typeName, description)
        case Success(db) => State() == db && error == None
        case Failure(e) => State() == old(State()) && error == Some(e)
      ensures old(Valid()) ==> Valid()
    {
      if !FitsDecimal(amount) {
        return Some(NumericOverflow("amount"));
      }
      var t := ParseTxType(typeName);
      if t.None? {
        return Some(CheckViolation("transactions", "transactions_type_check"));
      }
      if !HasUser(users, userId) {
        return Some(ForeignKeyViolation("transactions", "transactions_user_id_fkey"));
      }
      if !Ledger.CreditFits(users, userId, amount) {
        return Some(NumericOverflow("balance"));
      }
      if Valid() {
        Ledger.AddTransactionKeepsConstraints(State(), userId, amount, typeName, description);
        Ledger.AddTransactionKeepsEarnings(State(), userId, amount, typeName, description);
      }
      ghost var credited := Ledger.CreditRows(users, userId, amount);
      transactions := transactions + [Transaction(userId, amount, t.value, description)];
      var updated := users;
      var i := 0;
      while i < |updated|
        invariant |updated| == |users| && 0 <= i <= |users|
        invariant updated[..i] == credited[..i]
        invariant forall k :: i <= k < |users| ==> updated[k] == users[k]
      {
        if updated[i].id == userId {
          updated := updated[i := Ledger.CreditRow(updated[i], amount)];
        }
        assert updated[..i + 1] == credited[..i + 1] by {
          assert updated[..i + 1] == updated[..i] + [updated[i]];
          assert credited[..i + 1] == credited[..i] + [credited[i]];
        }
        i := i + 1;
      }
      assert updated == credited by { assert updated == updated[..|updated|]; assert credited == credited[..|credited|]; }
      users := updated;
      error := None;
    }
  }
}
