/**
  The `GET` handler of app/api/referral/stats/route.ts: a read-only report
  of how many users a user has referred and what their referral bonuses
  came to.  It only reads, so it is a function of the tables.
*/
module ReferralStats {
  import opened Wrappers
  import opened JsValues
  import opened Schema
  import Ledger

  datatype Stats = Stats(referralCode: string, referralCount: nat, totalEarnings: int)

  datatype Response = Found(stats: Stats) | Error(status: nat, message: string)

  function ReferredBy(id: UserId): User -> bool { (u: User) => u.referredBy == Some(id) }

  function BonusOf(id: UserId): Transaction -> bool { (t: Transaction) => t.userId == id && t.txType == ReferralBonus }

  /** `select("*", { count: "exact", head: true }).eq("referred_by", id)`. */
  function ReferralCount(users: seq<User>, id: UserId): nat {
    |Filter(users, ReferredBy(id))|
  }

  /** `reduce((sum, t) => sum + t.amount, 0)`, folding from the left. */
  function SumAmounts(ts: seq<Transaction>): int {
    if ts == [] then 0 else SumAmounts(ts[..|ts| - 1]) + ts[|ts| - 1].amount
  }

  /** The amounts of the user's `referral_bonus` rows, summed. */
  function ReferralEarnings(ts: seq<Transaction>, id: UserId): int {
    SumAmounts(Filter(ts, BonusOf(id)))
  }

  /** The handler, given the `telegram_id` search parameter (`None` when absent). */
  function GetStats(db: Db, telegramId: Option<string>): Response {
    if telegramId.None? || telegramId.value == "" then Error(400, "telegram_id is required")
    else match ByTelegramId(db.users, ParseInt(telegramId.value))
      case None => Error(404, "User not found")
      case Some(u) => Found(Stats(u.referralCode, ReferralCount(db.users, u.id), ReferralEarnings(db.transactions, u.id)))
  }

  /**
    A missing or empty id is a 400; an id no single row holds is a 404;
    otherwise the stats are those of the row whose telegram id is the
    number `Number.parseInt` reads from the text.
  */
  lemma GetStatsOutcome(db: Db, telegramId: Option<string>)
    ensures GetStats(db, telegramId) == Error(400, "telegram_id is required") <==> telegramId.None? || telegramId.value == ""
    ensures telegramId.Some? && telegramId.value != "" ==>
      (GetStats(db, telegramId) == Error(404, "User not found") <==> ByTelegramId(db.users, ParseInt(telegramId.value)).None?)
    ensures GetStats(db, telegramId).Found? ==>
      var u := ByTelegramId(db.users, ParseInt(telegramId.value)).value;
      && u in db.users && u.telegramId == ParseInt(telegramId.value)
      && GetStats(db, telegramId).stats == Stats(u.referralCode, ReferralCount(db.users, u.id), ReferralEarnings(db.transactions, u.id))
  {
    if GetStats(db, telegramId).Found? {
      var t := ParseInt(telegramId.value).value;
      SingleSound(db.users, WithTelegramId(t));
    }
  }

  /** Asking with the decimal telegram id of a row reports that row's code, referral count and earnings. */
  lemma GetStatsOfUser(db: Db, i: nat)
    requires Constraints(db) && i < |db.users| && db.users[i].telegramId.Some?
    ensures var u := db.users[i];
      GetStats(db, Some(DecimalString(u.telegramId.value))) ==
        Found(Stats(u.referralCode, ReferralCount(db.users, u.id), ReferralEarnings(db.transactions, u.id)))
  {
    var t := db.users[i].telegramId.value;
    ParseIntDecimalString(t);
    ByTelegramIdFinds(db.users, t);
  }

  lemma ReferralCountAppend(users: seq<User>, u: User, id: UserId)
    ensures ReferralCount(users + [u], id) == ReferralCount(users, id) + (if u.referredBy == Some(id) then 1 else 0)
  {
    FilterAppend(users, u, ReferredBy(id));
  }

  /** With no row referring to the user, the count is 0. */
  lemma ReferralCountNone(users: seq<User>, id: UserId)
    requires forall i :: 0 <= i < |users| ==> users[i].referredBy != Some(id)
    ensures ReferralCount(users, id) == 0
  {
    NoMatch(users, ReferredBy(id));
  }

  lemma {:induction false} SumAmountsFilterAppend(ts: seq<Transaction>, t: Transaction, p: Transaction -> bool)
    ensures SumAmounts(Filter(ts + [t], p)) == SumAmounts(Filter(ts, p)) + (if p(t) then t.amount else 0)
  {
    FilterAppend(ts, t, p);
    if !p(t) { assert Filter(ts, p) + [] == Filter(ts, p); }
  }

  /** Appending a ledger row adds its amount to the earnings exactly when it is that user's referral bonus. */
  lemma ReferralEarningsAppend(ts: seq<Transaction>, t: Transaction, id: UserId)
    ensures ReferralEarnings(ts + [t], id) == ReferralEarnings(ts, id) + (if t.userId == id && t.txType == ReferralBonus then t.amount else 0)
  {
    SumAmountsFilterAppend(ts, t, BonusOf(id));
  }

  /** With no referral bonus for the user, the earnings are 0. */
  lemma ReferralEarningsNone(ts: seq<Transaction>, id: UserId)
    requires forall i :: 0 <= i < |ts| ==> !(ts[i].userId == id && ts[i].txType == ReferralBonus)
    ensures ReferralEarnings(ts, id) == 0
  {
    NoMatch(ts, BonusOf(id));
  }

  lemma {:induction false} CreditRowsKeepReferrals(users: seq<User>, target: UserId, amount: int, id: UserId)
    ensures ReferralCount(Ledger.CreditRows(users, target, amount), id) == ReferralCount(users, id)
  {
    if users != [] {
      var users' := Ledger.CreditRows(users, target, amount);
      assert users'[1..] == Ledger.CreditRows(users[1..], target, amount);
      CreditRowsKeepReferrals(users[1..], target, amount, id);
      assert users'[0].referredBy == users[0].referredBy;
    }
  }

  /**
    A credit changes no one's referral count, and adds to a user's earnings
    only when it is a `referral_bonus` for that user.
  */
  lemma AddTransactionEffectOnStats(db: Db, userId: UserId, amount: int, typeName: string, description: Option<string>, id: UserId)
    requires Ledger.AddTransaction(db, userId, amount, typeName, description).Success?
    ensures var db' := Ledger.AddTransaction(db, userId, amount, typeName, description).value;
      && ReferralCount(db'.users, id) == ReferralCount(db.users, id)
      && ReferralEarnings(db'.transactions, id) ==
           ReferralEarnings(db.transactions, id) + (if userId == id && typeName == "referral_bonus" then amount else 0)
  {
    CreditRowsKeepReferrals(db.users, userId, amount, id);
    var t := ParseTxType(typeName).value;
    ParseTxTypeIff(typeName, t);
    ReferralEarningsAppend(db.transactions, Transaction(userId, amount, t, description), id);
  }
}
