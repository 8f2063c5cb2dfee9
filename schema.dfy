/**
  The `users` and `transactions` tables created by the migrations of
  app/api/setup/init-db/route.ts, with the constraints Postgres enforces on
  them, and the row lookups the route handlers perform through the
  database client (`.eq(column, value).single()`).  Money columns are
  `decimal(10, 2)`, held here as integer cents.
*/
module Schema {
  import opened Wrappers
  import JsValues

  /** A `uuid` primary key, abstracted to an opaque identifier. */
  type UserId = nat

  /** The closed set admitted by the `type` CHECK constraint. */
  datatype TxType = TaskReward | AdReward | ReferralBonus | Withdrawal

  function TxTypeName(t: TxType): string {
    match t
    case TaskReward => "task_reward"
    case AdReward => "ad_reward"
    case ReferralBonus => "referral_bonus"
    case Withdrawal => "withdrawal"
  }

  /** `type IN ('task_reward', 'ad_reward', 'referral_bonus', 'withdrawal')`. */
  function ParseTxType(s: string): Option<TxType> {
    if s == "task_reward" then Some(TaskReward)
    else if s == "ad_reward" then Some(AdReward)
    else if s == "referral_bonus" then Some(ReferralBonus)
    else if s == "withdrawal" then Some(Withdrawal)
    else None
  }

  /** The CHECK admits a text exactly when it is the name of one of the four types. */
  lemma ParseTxTypeIff(s: string, t: TxType)
    ensures ParseTxType(s) == Some(t) <==> s == TxTypeName(t)
  {
  }

  /** The largest magnitude of a `decimal(10, 2)`, 99999999.99, in cents. */
  const MaxCents: int := 9_999_999_999

  predicate FitsDecimal(cents: int) { -MaxCents <= cents <= MaxCents }

  predicate FitsBigint(n: int) { -0x8000_0000_0000_0000 <= n < 0x8000_0000_0000_0000 }

  datatype User = User(
    id: UserId,
    telegramId: Option<int>,
    username: Option<string>,
    firstName: Option<string>,
    lastName: Option<string>,
    photoUrl: Option<string>,
    referralCode: string,
    balance: int,
    totalEarned: int,
    referredBy: Option<UserId>)

  datatype Transaction = Transaction(userId: UserId, amount: int, txType: TxType, description: Option<string>)

  /** The two tables, rows in insertion order. */
  datatype Db = Db(users: seq<User>, transactions: seq<Transaction>)

  /** The error Postgres raises, with the table, constraint, column or value its message names. */
  datatype DbError =
    | UniqueViolation(constraint: string)
    | ForeignKeyViolation(table: string, constraint: string)
    | CheckViolation(table: string, constraint: string)
    | NotNullViolation(column: string, table: string)
    | NumericOverflow(column: string)
    | BigintOutOfRange(value: int)

  /**
    `error.message` as Postgres words it.  A numeric overflow does not name
    its column; the `column` field only tells the model's cases apart.
  */
  function Message(e: DbError): string {
    match e
    case UniqueViolation(c) => "duplicate key value violates unique constraint \"" + c + "\""
    case ForeignKeyViolation(t, c) => "insert or update on table \"" + t + "\" violates foreign key constraint \"" + c + "\""
    case CheckViolation(t, c) => "new row for relation \"" + t + "\" violates check constraint \"" + c + "\""
    case NotNullViolation(c, t) => "null value in column \"" + c + "\" of relation \"" + t + "\" violates not-null constraint"
    case NumericOverflow(_) => "numeric field overflow"
    case BigintOutOfRange(n) => "value \"" + JsValues.DecimalString(n) + "\" is out of range for type bigint"
  }

  predicate HasUser(users: seq<User>, id: UserId) {
    exists i :: 0 <= i < |users| && users[i].id == id
  }

  predicate TelegramIdTaken(users: seq<User>, t: int) {
    exists i :: 0 <= i < |users| && users[i].telegramId == Some(t)
  }

  predicate ReferralCodeTaken(users: seq<User>, code: string) {
    exists i :: 0 <= i < |users| && users[i].referralCode == code
  }

  /** `id uuid PRIMARY KEY`. */
  predicate UniqueIds(users: seq<User>) {
    forall i, j :: 0 <= i < j < |users| ==> users[i].id != users[j].id
  }

  /** `telegram_id bigint UNIQUE`: NULLs do not collide. */
  predicate UniqueTelegramIds(users: seq<User>) {
    forall i, j :: 0 <= i < j < |users| && users[i].telegramId.Some? ==> users[i].telegramId != users[j].telegramId
  }

  /** `referral_code text UNIQUE NOT NULL`. */
  predicate UniqueReferralCodes(users: seq<User>) {
    forall i, j :: 0 <= i < j < |users| ==> users[i].referralCode != users[j].referralCode
  }

  /** `referred_by uuid REFERENCES users(id)`. */
  predicate ReferrersExist(users: seq<User>) {
    forall i :: 0 <= i < |users| && users[i].referredBy.Some? ==> HasUser(users, users[i].referredBy.value)
  }

  /** Column types: `bigint` telegram ids, `decimal(10, 2)` balances. */
  predicate RowsFit(users: seq<User>) {
    forall i :: 0 <= i < |users| ==>
      (users[i].telegramId.Some? ==> FitsBigint(users[i].telegramId.value)) &&
      FitsDecimal(users[i].balance) && FitsDecimal(users[i].totalEarned)
  }

  /** `user_id uuid NOT NULL REFERENCES users(id)` and `amount decimal(10, 2) NOT NULL`. */
  predicate LedgerRowsValid(db: Db) {
    forall k :: 0 <= k < |db.transactions| ==>
      HasUser(db.users, db.transactions[k].userId) && FitsDecimal(db.transactions[k].amount)
  }

  /** Every constraint of the two tables. */
  predicate Constraints(db: Db) {
    && UniqueIds(db.users)
    && UniqueTelegramIds(db.users)
    && UniqueReferralCodes(db.users)
    && ReferrersExist(db.users)
    && RowsFit(db.users)
    && LedgerRowsValid(db)
  }

  /** The columns an INSERT into `users` supplies; the others take their defaults. */
  datatype NewUser = NewUser(
    telegramId: Option<int>,
    username: Option<string>,
    firstName: Option<string>,
    lastName: Option<string>,
    photoUrl: Option<string>,
    referralCode: string,
    referredBy: Option<UserId>)

  /** The row as inserted: `balance` and `total_earned` DEFAULT 0. */
  function Created(n: NewUser, id: UserId): User {
    User(id, n.telegramId, n.username, n.firstName, n.lastName, n.photoUrl, n.referralCode, 0, 0, n.referredBy)
  }

  /**
    `INSERT INTO users`: the statement fails on the first violated
    constraint, in the order Postgres meets them: the value is coerced to
    the column type, then the unique indexes are probed (the primary key
    first, in the order the columns declare them), and the foreign key is
    checked once the row is in place, so a row may name itself as its
    referrer.
  */
  function InsertUser(db: Db, n: NewUser, id: UserId): Result<Db, DbError> {
    if n.telegramId.Some? && !FitsBigint(n.telegramId.value) then Failure(BigintOutOfRange(n.telegramId.value))
    else if HasUser(db.users, id) then Failure(UniqueViolation("users_pkey"))
    else if n.telegramId.Some? && TelegramIdTaken(db.users, n.telegramId.value) then
      Failure(UniqueViolation("users_telegram_id_key"))
    else if ReferralCodeTaken(db.users, n.referralCode) then Failure(UniqueViolation("users_referral_code_key"))
    else if n.referredBy.Some? && n.referredBy.value != id && !HasUser(db.users, n.referredBy.value) then
      Failure(ForeignKeyViolation("users", "users_referred_by_fkey"))
    else Success(Db(db.users + [Created(n, id)], db.transactions))
  }

  /** An insert succeeds exactly when no constraint is violated, and then appends the defaulted row. */
  lemma InsertUserOutcome(db: Db, n: NewUser, id: UserId)
    ensures InsertUser(db, n, id).Success? <==>
      && !HasUser(db.users, id)
      && (n.telegramId.Some? ==> FitsBigint(n.telegramId.value) && !TelegramIdTaken(db.users, n.telegramId.value))
      && !ReferralCodeTaken(db.users, n.referralCode)
      && (n.referredBy.Some? ==> n.referredBy.value == id || HasUser(db.users, n.referredBy.value))
    ensures InsertUser(db, n, id).Success? ==>
      var u := InsertUser(db, n, id).value.users[|db.users|];
      && InsertUser(db, n, id).value == Db(db.users + [u], db.transactions)
      && u.id == id && u.balance == 0 && u.totalEarned == 0 && u.referralCode == n.referralCode
  {
  }

  lemma HasUserAppend(users: seq<User>, u: User, id: UserId)
    ensures HasUser(users + [u], id) <==> HasUser(users, id) || u.id == id
  {
    if HasUser(users, id) {
      var i :| 0 <= i < |users| && users[i].id == id;
      assert (users + [u])[i].id == id;
    }
    if u.id == id { assert (users + [u])[|users|].id == id; }
  }

  /** A successful insert keeps every table constraint. */
  lemma InsertUserKeepsConstraints(db: Db, n: NewUser, id: UserId)
    requires Constraints(db) && InsertUser(db, n, id).Success?
    ensures Constraints(InsertUser(db, n, id).value)
  {
    var u := Created(n, id);
    var users' := db.users + [u];
    forall x | HasUser(db.users, x) ensures HasUser(users', x) { HasUserAppend(db.users, u, x); }
    HasUserAppend(db.users, u, id);
    forall i, j | 0 <= i < j < |users'| ensures users'[i].id != users'[j].id {
      if j == |db.users| { assert users'[i] == db.users[i]; }
    }
    forall i, j | 0 <= i < j < |users'| && users'[i].telegramId.Some?
      ensures users'[i].telegramId != users'[j].telegramId
    {
      if j == |db.users| { assert users'[i] == db.users[i]; }
    }
    forall i, j | 0 <= i < j < |users'| ensures users'[i].referralCode != users'[j].referralCode {
      if j == |db.users| { assert users'[i] == db.users[i]; }
    }
    forall i | 0 <= i < |users'| && users'[i].referredBy.Some? ensures HasUser(users', users'[i].referredBy.value) {
      if i < |db.users| { assert users'[i] == db.users[i]; }
    }
  }

  /** The rows of `s` that satisfy `p`, in order: a filtered SELECT. */
  function Filter<T>(s: seq<T>, p: T -> bool): (r: seq<T>)
    ensures |r| <= |s|
  {
    if s == [] then [] else (if p(s[0]) then [s[0]] else []) + Filter(s[1..], p)
  }

  /** `.single()` and `.maybeSingle()`: the row when exactly one matched, otherwise no data. */
  function Single<T>(rows: seq<T>): Option<T> {
    if |rows| == 1 then Some(rows[0]) else None
  }

  lemma {:induction false} FilterAppend<T>(s: seq<T>, x: T, p: T -> bool)
    ensures Filter(s + [x], p) == Filter(s, p) + (if p(x) then [x] else [])
  {
    if s != [] {
      FilterAppend(s[1..], x, p);
      assert (s + [x])[1..] == s[1..] + [x];
    }
  }

  lemma {:induction false} FilterMembers<T>(s: seq<T>, p: T -> bool)
    ensures forall x :: x in Filter(s, p) <==> x in s && p(x)
  {
    if s != [] {
      FilterMembers(s[1..], p);
      assert s == [s[0]] + s[1..];
    }
  }

  /** With one matching row, `.single()` returns it; with none it returns no data. */
  lemma {:induction false} SingleMatch<T>(s: seq<T>, p: T -> bool, i: nat)
    requires i < |s| && p(s[i])
    requires forall j :: 0 <= j < |s| && p(s[j]) ==> j == i
    ensures Filter(s, p) == [s[i]]
  {
    if i == 0 {
      NoMatch(s[1..], p);
    } else {
      SingleMatch(s[1..], p, i - 1);
    }
  }

  lemma {:induction false} NoMatch<T>(s: seq<T>, p: T -> bool)
    requires forall j :: 0 <= j < |s| ==> !p(s[j])
    ensures Filter(s, p) == []
  {
    if s != [] { NoMatch(s[1..], p); }
  }

  lemma SingleSound<T>(s: seq<T>, p: T -> bool)
    ensures Single(Filter(s, p)).Some? ==> Single(Filter(s, p)).value in s && p(Single(Filter(s, p)).value)
  {
    FilterMembers(s, p);
    if |Filter(s, p)| == 1 { assert Filter(s, p)[0] in Filter(s, p); }
  }

  function WithTelegramId(t: int): User -> bool { (u: User) => u.telegramId == Some(t) }
  function WithReferralCode(code: string): User -> bool { (u: User) => u.referralCode == code }
  function WithId(id: UserId): User -> bool { (u: User) => u.id == id }

  /** `.from("users").eq("telegram_id", t).single()`; a NaN or undefined id matches nothing. */
  function ByTelegramId(users: seq<User>, t: Option<int>): Option<User> {
    match t
    case None => None
    case Some(n) => Single(Filter(users, WithTelegramId(n)))
  }

  /** `.from("users").eq("referral_code", code).single()`: exact, case-sensitive. */
  function ByReferralCode(users: seq<User>, code: string): Option<User> {
    Single(Filter(users, WithReferralCode(code)))
  }

  /** `.from("users").eq("id", id).single()`. */
  function ById(users: seq<User>, id: UserId): Option<User> {
    Single(Filter(users, WithId(id)))
  }

  /** Under the unique constraint the telegram-id lookup finds exactly the row holding that id, and nothing else. */
  lemma ByTelegramIdFinds(users: seq<User>, t: int)
    requires UniqueTelegramIds(users)
    ensures forall i :: 0 <= i < |users| && users[i].telegramId == Some(t) ==> ByTelegramId(users, Some(t)) == Some(users[i])
    ensures !TelegramIdTaken(users, t) ==> ByTelegramId(users, Some(t)) == None
  {
    forall i | 0 <= i < |users| && users[i].telegramId == Some(t) ensures ByTelegramId(users, Some(t)) == Some(users[i]) {
      SingleMatch(users, WithTelegramId(t), i);
    }
    if !TelegramIdTaken(users, t) { NoMatch(users, WithTelegramId(t)); }
  }

  /** Under the unique constraint the referral-code lookup finds exactly the row holding that code. */
  lemma ByReferralCodeFinds(users: seq<User>, code: string)
    requires UniqueReferralCodes(users)
    ensures forall i :: 0 <= i < |users| && users[i].referralCode == code ==> ByReferralCode(users, code) == Some(users[i])
    ensures !ReferralCodeTaken(users, code) ==> ByReferralCode(users, code) == None
  {
    forall i | 0 <= i < |users| && users[i].referralCode == code ensures ByReferralCode(users, code) == Some(users[i]) {
      SingleMatch(users, WithReferralCode(code), i);
    }
    if !ReferralCodeTaken(users, code) { NoMatch(users, WithReferralCode(code)); }
  }

  /** Under the primary key the id lookup finds exactly the row with that id. */
  lemma ByIdFinds(users: seq<User>, i: nat)
    requires UniqueIds(users) && i < |users|
    ensures ById(users, users[i].id) == Some(users[i])
  {
    SingleMatch(users, WithId(users[i].id), i);
  }
}
