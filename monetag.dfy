/**
  The `POST` handler of app/api/monetag/callback/route.ts: the ad network
  reports a watched ad for a telegram id, and the user is credited the
  configured `adView` reward as an `ad_reward`.
*/
module MonetagCallback {
  import opened Wrappers
  import opened JsValues
  import opened Config
  import opened Schema
  import Ledger
  import Database

  /** The JSON body; `revenue` only feeds `p_metadata`. */
  datatype Request = Request(telegramId: Value, adType: Value, revenue: Value)

  /** `{ success: true, reward }`, the reward in points, or an error. */
  datatype Response = Rewarded(reward: int) | Error(status: nat, message: string)

  /** `` `Watched ${adType} ad` ``. */
  function AdDescription(adType: Value): string { "Watched " + ToText(adType) + " ad" }

  /** The handler: its response and the tables afterwards. */
  function Callback(db: Db, req: Request, cfg: AppConfig): (Response, Db) {
    if !Truthy(req.telegramId) || !Truthy(req.adType) then (Error(400, "Missing required fields"), db)
    else match ByTelegramId(db.users, ToInt(req.telegramId))
      case None => (Error(404, "User not found"), db)
      case Some(u) =>
        match cfg.rewards.adView
        // A NaN reward is sent as JSON null and meets the NOT NULL on `amount`.
        case None => (Error(500, Message(NotNullViolation("amount", "transactions"))), db)
        case Some(points) =>
          match Ledger.AddTransaction(db, u.id, points * 100, "ad_reward", Some(AdDescription(req.adType)))
          case Failure(e) => (Error(500, Message(e)), db)
          case Success(db') => (Rewarded(points), db')
  }

  /** A missing telegram id or ad type is exactly the 400 case, and writes nothing. */
  lemma MissingFieldsRejected(db: Db, req: Request, cfg: AppConfig)
    ensures Callback(db, req, cfg).0 == Error(400, "Missing required fields") <==> !Truthy(req.telegramId) || !Truthy(req.adType)
    ensures !Truthy(req.telegramId) || !Truthy(req.adType) ==> Callback(db, req, cfg).1 == db
  {
  }

  /** An id no single row holds is a 404 and writes nothing. */
  lemma UnknownUserRejected(db: Db, req: Request, cfg: AppConfig)
    requires Truthy(req.telegramId) && Truthy(req.adType)
    requires !exists i :: 0 <= i < |db.users| && ToInt(req.telegramId).Some? && db.users[i].telegramId == ToInt(req.telegramId)
    ensures Callback(db, req, cfg) == (Error(404, "User not found"), db)
  {
    var t := ToInt(req.telegramId);
    if t.Some? { NoMatch(db.users, WithTelegramId(t.value)); }
  }

  /**
    For the row whose telegram id `Number.parseInt` reads from the request
    (sent as a number or as text): the callback is rewarded exactly when a
    reward is configured and `add_transaction` of that many points, in
    cents, as an `ad_reward` for the row succeeds, and then the tables are
    that call's result, with exactly one ledger row appended and the row's
    balance and lifetime total grown by the reward.  Otherwise the answer
    is a 500 and nothing is written.
  */
  lemma CallbackCredits(db: Db, req: Request, cfg: AppConfig, i: nat)
    requires Constraints(db) && i < |db.users| && db.users[i].telegramId.Some?
    requires ToInt(req.telegramId) == db.users[i].telegramId && Truthy(req.telegramId) && Truthy(req.adType)
    ensures var (resp, db') := Callback(db, req, cfg);
      && (resp.Rewarded? <==>
            cfg.rewards.adView.Some? &&
            Ledger.AddTransaction(db, db.users[i].id, cfg.rewards.adView.value * 100, "ad_reward", Some(AdDescription(req.adType))).Success?)
      && (resp.Rewarded? ==>
            && cfg.rewards.adView == Some(resp.reward)
            && Ledger.AddTransaction(db, db.users[i].id, resp.reward * 100, "ad_reward", Some(AdDescription(req.adType))) == Success(db')
            && db'.transactions == db.transactions + [Transaction(db.users[i].id, resp.reward * 100, AdReward, Some(AdDescription(req.adType)))]
            && |db'.users| == |db.users|
            && db'.users[i].balance == db.users[i].balance + resp.reward * 100
            && db'.users[i].totalEarned == db.users[i].totalEarned + (if resp.reward > 0 then resp.reward * 100 else 0)
            && (forall j :: 0 <= j < |db.users| && j != i ==> db'.users[j] == db.users[j]))
      && (resp.Error? ==> resp.status == 500 && db' == db)
  {
    var t := db.users[i].telegramId.value;
    ByTelegramIdFinds(db.users, t);
    var u := db.users[i];
    if cfg.rewards.adView.Some? {
      var amount := cfg.rewards.adView.value * 100;
      var r := Ledger.AddTransaction(db, u.id, amount, "ad_reward", Some(AdDescription(req.adType)));
      if r.Success? {
        Ledger.AddTransactionAppends(db, u.id, amount, "ad_reward", Some(AdDescription(req.adType)));
        Ledger.AddTransactionCredits(db, u.id, amount, "ad_reward", Some(AdDescription(req.adType)));
        forall j | 0 <= j < |db.users| && j != i ensures db.users[j].id != u.id {}
      }
    }
  }

  /** A rewarded callback appended one ledger row worth the reported points. */
  lemma RewardedAppends(db: Db, req: Request, cfg: AppConfig)
    requires Callback(db, req, cfg).0.Rewarded?
    ensures cfg.rewards.adView == Some(Callback(db, req, cfg).0.reward)
    ensures |Callback(db, req, cfg).1.transactions| == |db.transactions| + 1
    ensures Callback(db, req, cfg).1.transactions[|db.transactions|].amount == Callback(db, req, cfg).0.reward * 100
  {
    var u := ByTelegramId(db.users, ToInt(req.telegramId)).value;
    var points := cfg.rewards.adView.value;
    Ledger.AddTransactionAppends(db, u.id, points * 100, "ad_reward", Some(AdDescription(req.adType)));
  }

  /** The handler against the store. */
  method Post(store: Database.Store, req: Request, cfg: AppConfig) returns (response: Response)
    modifies store
    ensures (response, store.State()) == Callback(old(store.State()), req, cfg)
    ensures old(store.Valid()) ==> store.Valid()
  {
    if !Truthy(req.telegramId) || !Truthy(req.adType) {
      return Error(400, "Missing required fields");
    }
    var user := ByTelegramId(store.users, ToInt(req.telegramId));
    if user.None? {
      return Error(404, "User not found");
    }
    var rewardAmount := cfg.rewards.adView;
    if rewardAmount.None? {
      return Error(500, Message(NotNullViolation("amount", "transactions")));
    }
    var error := store.AddTransaction(user.value.id, rewardAmount.value * 100, "ad_reward", Some(AdDescription(req.adType)));
    if error.Some? {
      return Error(500, Message(error.value));
    }
    response := Rewarded(rewardAmount.value);
  }
}
