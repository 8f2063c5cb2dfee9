/**
  The `POST` handler of app/api/wallet/add-reward/route.ts: credit a user,
  found by telegram id, with an amount of a caller-chosen type, then read
  back the row's balance and lifetime total.
*/
module AddReward {
  import opened Wrappers
  import opened JsValues
  import opened Schema
  import Ledger
  import Database

  /** The JSON body; `metadata` only feeds `p_metadata`. */
  datatype Request = Request(telegramId: Value, txType: Value, amount: Value, description: Value, metadata: Value)

  /**
    The re-read `balance` and `total_earned` (`None` when the re-read finds
    no single row), or an error.  `transaction_id` is the procedure's
    `void` result, always null, and is not carried.
  */
  datatype Response = Credited(balance: Option<int>, totalEarned: Option<int>) | Error(status: nat, message: string)

  /** `description || null`. */
  function DescriptionOf(v: Value): Option<string> { if Truthy(v) then Some(ToText(v)) else None }

  /**
    The handler: its response and the tables afterwards.  `parseFloat` is
    `Number.parseFloat(amount)` as Postgres stores it in cents, `None` for NaN.
  */
  function Reward(db: Db, req: Request, parseFloat: Value -> Option<int>): (Response, Db) {
    if !Truthy(req.telegramId) || !Truthy(req.txType) || !Truthy(req.amount) then (Error(400, "Missing required fields"), db)
    else match ByTelegramId(db.users, ToInt(req.telegramId))
      case None => (Error(404, "User not found"), db)
      case Some(u) =>
        match parseFloat(req.amount)
        // NaN is sent as JSON null and meets the NOT NULL on `amount`.
        case None => (Error(500, Message(NotNullViolation("amount", "transactions"))), db)
        case Some(cents) =>
          match Ledger.AddTransaction(db, u.id, cents, ToText(req.txType), DescriptionOf(req.description))
          case Failure(e) => (Error(500, Message(e)), db)
          case Success(db') =>
            var updated := ById(db'.users, u.id);
            (Credited(if updated.Some? then Some(updated.value.balance) else None,
                      if updated.Some? then Some(updated.value.totalEarned) else None), db')
  }

  /** A missing telegram id or type, or a falsy amount (0 included), is exactly the 400 case, and writes nothing. */
  lemma MissingFieldsRejected(db: Db, req: Request, parseFloat: Value -> Option<int>)
    ensures Reward(db, req, parseFloat).0 == Error(400, "Missing required fields") <==>
      !Truthy(req.telegramId) || !Truthy(req.txType) || !Truthy(req.amount)
    ensures !Truthy(req.telegramId) || !Truthy(req.txType) || !Truthy(req.amount) ==> Reward(db, req, parseFloat).1 == db
  {
  }

  /** An id no single row holds is a 404 and writes nothing. */
  lemma UnknownUserRejected(db: Db, req: Request, parseFloat: Value -> Option<int>)
    requires Truthy(req.telegramId) && Truthy(req.txType) && Truthy(req.amount)
    requires !exists i :: 0 <= i < |db.users| && ToInt(req.telegramId).Some? && db.users[i].telegramId == ToInt(req.telegramId)
    ensures Reward(db, req, parseFloat) == (Error(404, "User not found"), db)
  {
    var t := ToInt(req.telegramId);
    if t.Some? { NoMatch(db.users, WithTelegramId(t.value)); }
  }

  /**
    For the row whose telegram id `Number.parseInt` reads from the request
    (sent as a number or as text): the request is credited exactly when the
    amount parses and `add_transaction` succeeds for that row.  Then the
    tables are that call's result and the response reports the row as it
    is after the credit (`CreditReadBack` says what the credit does);
    otherwise the answer is a 500 and nothing is written.
  */
  lemma RewardCredits(db: Db, req: Request, parseFloat: Value -> Option<int>, i: nat)
    requires Constraints(db) && i < |db.users| && db.users[i].telegramId.Some?
    requires ToInt(req.telegramId) == db.users[i].telegramId
    requires Truthy(req.telegramId) && Truthy(req.txType) && Truthy(req.amount)
    ensures var (resp, db') := Reward(db, req, parseFloat);
      && (resp.Credited? <==>
            parseFloat(req.amount).Some? &&
            Ledger.AddTransaction(db, db.users[i].id, parseFloat(req.amount).value, ToText(req.txType), DescriptionOf(req.description)).Success?)
      && (resp.Credited? ==>
            && parseFloat(req.amount).Some?
            && Ledger.AddTransaction(db, db.users[i].id, parseFloat(req.amount).value, ToText(req.txType), DescriptionOf(req.description))
                 == Success(db')
            && resp == Credited(Some(db'.users[i].balance), Some(db'.users[i].totalEarned)))
      && (resp.Error? ==> resp.status == 500 && db' == db)
  {
    ByTelegramIdFinds(db.users, db.users[i].telegramId.value);
    if parseFloat(req.amount).Some? {
      var cents := parseFloat(req.amount).value;
      if Ledger.AddTransaction(db, db.users[i].id, cents, ToText(req.txType), DescriptionOf(req.description)).Success? {
        CreditReadBack(db, i, cents, ToText(req.txType), DescriptionOf(req.description));
      }
    }
  }

  /** After a successful credit of row `i`, the id lookup finds the credited row. */
  lemma CreditReadBack(db: Db, i: nat, cents: int, typeName: string, desc: Option<string>)
    requires Constraints(db) && i < |db.users|
    requires Ledger.AddTransaction(db, db.users[i].id, cents, typeName, desc).Success?
    ensures var db' := Ledger.AddTransaction(db, db.users[i].id, cents, typeName, desc).value;
      && |db'.transactions| == |db.transactions| + 1
      && db'.transactions[..|db.transactions|] == db.transactions
      && db'.transactions[|db.transactions|].userId == db.users[i].id
      && db'.transactions[|db.transactions|].amount == cents
      && TxTypeName(db'.transactions[|db.transactions|].txType) == typeName
      && db'.transactions[|db.transactions|].description == desc
      && |db'.users| == |db.users|
      && (forall j :: 0 <= j < |db.users| && j != i ==> db'.users[j] == db.users[j])
      && db'.users[i].balance == db.users[i].balance + cents
      && db'.users[i].totalEarned == db.users[i].totalEarned + (if cents > 0 then cents else 0)
      && ById(db'.users, db.users[i].id) == Some(db'.users[i])
  {
    var u := db.users[i];
    var r := Ledger.AddTransaction(db, u.id, cents, typeName, desc);
    Ledger.AddTransactionAppends(db, u.id, cents, typeName, desc);
    Ledger.AddTransactionCredits(db, u.id, cents, typeName, desc);
    Ledger.AddTransactionKeepsConstraints(db, u.id, cents, typeName, desc);
    forall j | 0 <= j < |db.users| && j != i ensures db.users[j].id != u.id {}
    assert r.value.users[i].id == u.id;
    ByIdFinds(r.value.users, i);
  }

  /**
    A type outside the four is a 500 that writes nothing: the CHECK
    constraint's message when the amount fits `decimal(10, 2)`, and the
    numeric overflow, which Postgres meets first, when it does not.
  */
  lemma UnknownTypeRejected(db: Db, req: Request, parseFloat: Value -> Option<int>)
    requires Truthy(req.telegramId) && Truthy(req.txType) && Truthy(req.amount)
    requires ByTelegramId(db.users, ToInt(req.telegramId)).Some? && parseFloat(req.amount).Some?
    requires ParseTxType(ToText(req.txType)).None?
    ensures FitsDecimal(parseFloat(req.amount).value) ==>
      Reward(db, req, parseFloat) == (Error(500, Message(CheckViolation("transactions", "transactions_type_check"))), db)
    ensures !FitsDecimal(parseFloat(req.amount).value) ==>
      Reward(db, req, parseFloat) == (Error(500, Message(NumericOverflow("amount"))), db)
  {
  }

  /** The handler against the store: credit, then re-read the row. */
  method Post(store: Database.Store, req: Request, parseFloat: Value -> Option<int>) returns (response: Response)
    modifies store
    ensures (response, store.State()) == Reward(old(store.State()), req, parseFloat)
    ensures old(store.Valid()) ==> store.Valid()
  {
    if !Truthy(req.telegramId) || !Truthy(req.txType) || !Truthy(req.amount) {
      return Error(400, "Missing required fields");
    }
    var user := ByTelegramId(store.users, ToInt(req.telegramId));
    if user.None? {
      return Error(404, "User not found");
    }
    var cents := parseFloat(req.amount);
    if cents.None? {
      return Error(500, Message(NotNullViolation("amount", "transactions")));
    }
    var error := store.AddTransaction(user.value.id, cents.value, ToText(req.txType), DescriptionOf(req.description));
    if error.Some? {
      return Error(500, Message(error.value));
    }
    var updatedUser := ById(store.users, user.value.id);
    response := Credited(if updatedUser.Some? then Some(updatedUser.value.balance) else None,
                         if updatedUser.Some? then Some(updatedUser.value.totalEarned) else None);
  }
}
