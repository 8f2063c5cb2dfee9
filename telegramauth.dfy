/**
  The `POST` handler of app/api/auth/telegram/route.ts: Telegram login with
  first-login provisioning.  In production the init data must carry a
  valid signature; the `user` field is parsed; an existing row with the
  same telegram id is returned as it is; otherwise a row is created with a
  random upper-case hex referral code, attributed to the user whose code
  was supplied, and that referrer is credited a referral bonus.
*/
module TelegramAuth {
  import opened Wrappers
  import opened JsValues
  import opened Hex
  import opened InitData
  import opened Config
  import opened Schema
  import Ledger
  import ReferralStats
  import Database

  /** The fields of the parsed `user` JSON the handler reads. */
  datatype TelegramUser = TelegramUser(
    id: Option<int>,
    username: Option<string>,
    firstName: Option<string>,
    lastName: Option<string>,
    photoUrl: Option<string>)

  /** The JSON body: the decoded init-data pairs and the optional referral code. */
  datatype Request = Request(initData: seq<Pair>, referralCode: Value)

  /** What `crypto.randomBytes(4)` and the `gen_random_uuid()` default produce for this call. */
  datatype Randomness = Randomness(codeBytes: seq<byte>, newId: UserId)

  datatype Response = Authenticated(user: User) | Error(status: nat, message: string)

  /** `p_amount: 5.0`, in cents. */
  const ReferralBonusCents: int := 500
  const BonusDescription: string := "Referral bonus"

  /** `process.env.TELEGRAM_BOT_TOKEN || "test_token"`. */
  function BotToken(env: Env): string { Setting(env, BotTokenVar, "test_token") }

  predicate IsProduction(env: Env) { "NODE_ENV" in env && env["NODE_ENV"] == "production" }

  /** `s || null` on an optional string. */
  function OrNull(s: Option<string>): Option<string> { if s == Some("") then None else s }

  /** `crypto.randomBytes(4).toString("hex").toUpperCase()`. */
  function ReferralCodeOf(bytes: seq<byte>): string { ToUpperAscii(HexLower(bytes)) }

  /** The referrer lookup: only a truthy code is looked up, and only an exact match counts. */
  function ReferrerFor(users: seq<User>, code: Value): Option<UserId> {
    if !Truthy(code) then None
    else match ByReferralCode(users, ToText(code))
      case None => None
      case Some(r) => Some(r.id)
  }

  /** The `newUser` object, with `referred_by` already decided. */
  function Applicant(tu: TelegramUser, code: string, referrer: Option<UserId>): NewUser {
    NewUser(tu.id, OrNull(tu.username), OrNull(tu.firstName), OrNull(tu.lastName), OrNull(tu.photoUrl), code, referrer)
  }

  /** The bonus call after a successful insert; its result is ignored, so a failed bonus leaves the tables as they were. */
  function AfterBonus(db: Db, created: User): Db {
    if created.referredBy.None? then db
    else match Ledger.AddTransaction(db, created.referredBy.value, ReferralBonusCents, "referral_bonus", Some(BonusDescription))
      case Success(db') => db'
      case Failure(_) => db
  }

  /** The handler: its response and the tables afterwards.  `parseUser` is `JSON.parse`; `None` is a throw. */
  function Login(db: Db, req: Request, env: Env, crypto: Crypto, parseUser: string -> Option<TelegramUser>,
                 rnd: Randomness): (Response, Db)
  {
    if IsProduction(env) && !VerifyInitData(req.initData, BotToken(env), crypto) then
      (Error(401, "Invalid Telegram data"), db)
    else
      var userData := FirstValue(req.initData, "user");
      if userData.None? || userData.value == "" then (Error(400, "No user data provided"), db)
      else match parseUser(userData.value)
        case None => (Error(500, "Internal server error"), db)
        case Some(tu) =>
          match ByTelegramId(db.users, tu.id)
          case Some(existing) => (Authenticated(existing), db)
          case None =>
            var n := Applicant(tu, ReferralCodeOf(rnd.codeBytes), ReferrerFor(db.users, req.referralCode));
            match InsertUser(db, n, rnd.newId)
            case Failure(e) => (Error(500, Message(e)), db)
            case Success(db1) => (Authenticated(Created(n, rnd.newId)), AfterBonus(db1, Created(n, rnd.newId)))
  }

  /** Passed the signature gate and carries a non-empty `user` field that parses. */
  predicate Admitted(req: Request, env: Env, crypto: Crypto, parseUser: string -> Option<TelegramUser>, tu: TelegramUser) {
    && !(IsProduction(env) && !VerifyInitData(req.initData, BotToken(env), crypto))
    && FirstValue(req.initData, "user").Some?
    && FirstValue(req.initData, "user").value != ""
    && parseUser(FirstValue(req.initData, "user").value) == Some(tu)
  }

  /** A 401 happens exactly in production with a payload that fails verification, and then nothing is written. */
  lemma UnverifiedRejected(db: Db, req: Request, env: Env, crypto: Crypto, parseUser: string -> Option<TelegramUser>, rnd: Randomness)
    ensures var (resp, db') := Login(db, req, env, crypto, parseUser, rnd);
      && (resp.Error? && resp.status == 401 <==> IsProduction(env) && !VerifyInitData(req.initData, BotToken(env), crypto))
      && (resp.Error? && resp.status == 401 ==> resp.message == "Invalid Telegram data" && db' == db)
  {
  }

  /** Outside production the signature is not looked at: any two payloads with the same `user` field fare alike. */
  lemma DevelopmentSkipsVerification(db: Db, req: Request, req': Request, env: Env, crypto: Crypto,
                                     parseUser: string -> Option<TelegramUser>, rnd: Randomness)
    requires !IsProduction(env)
    requires FirstValue(req.initData, "user") == FirstValue(req'.initData, "user") && req.referralCode == req'.referralCode
    ensures Login(db, req, env, crypto, parseUser, rnd) == Login(db, req', env, crypto, parseUser, rnd)
  {
  }

  /** With no (or an empty) `user` field the answer is 400 and nothing is written. */
  lemma MissingUserRejected(db: Db, req: Request, env: Env, crypto: Crypto, parseUser: string -> Option<TelegramUser>, rnd: Randomness)
    requires !(IsProduction(env) && !VerifyInitData(req.initData, BotToken(env), crypto))
    requires FirstValue(req.initData, "user").None? || FirstValue(req.initData, "user").value == ""
    ensures Login(db, req, env, crypto, parseUser, rnd) == (Error(400, "No user data provided"), db)
  {
  }

  /**
    A row with the same telegram id is returned as stored, and nothing is
    written, whatever profile fields, referral code or random values come
    with the request.
  */
  lemma ExistingUserReturned(db: Db, req: Request, env: Env, crypto: Crypto, parseUser: string -> Option<TelegramUser>,
                             rnd: Randomness, tu: TelegramUser, i: nat)
    requires Constraints(db) && Admitted(req, env, crypto, parseUser, tu)
    requires i < |db.users| && tu.id.Some? && db.users[i].telegramId == tu.id
    ensures Login(db, req, env, crypto, parseUser, rnd) == (Authenticated(db.users[i]), db)
  {
    ByTelegramIdFinds(db.users, tu.id.value);
  }

  /** Under the unique code constraint the referrer is the row whose code equals the supplied one, if any. */
  lemma ReferrerForSpec(users: seq<User>, code: Value)
    requires UniqueReferralCodes(users)
    ensures forall i :: 0 <= i < |users| && Truthy(code) && users[i].referralCode == ToText(code) ==>
      ReferrerFor(users, code) == Some(users[i].id)
    ensures ReferrerFor(users, code).None? <==> !Truthy(code) || !ReferralCodeTaken(users, ToText(code))
  {
    if Truthy(code) {
      ByReferralCodeFinds(users, ToText(code));
      SingleSound(users, WithReferralCode(ToText(code)));
    }
  }

  /** A referrer is always an existing row holding exactly the supplied code. */
  lemma ReferrerExists(users: seq<User>, code: Value)
    ensures ReferrerFor(users, code).Some? ==>
      exists i :: 0 <= i < |users| && users[i].id == ReferrerFor(users, code).value && users[i].referralCode == ToText(code)
  {
    if Truthy(code) {
      SingleSound(users, WithReferralCode(ToText(code)));
    }
  }

  /** The row a first login creates. */
  lemma NewUserProvisioned(db: Db, req: Request, env: Env, crypto: Crypto, parseUser: string -> Option<TelegramUser>,
                           rnd: Randomness, tu: TelegramUser)
    requires |rnd.codeBytes| == 4
    requires Admitted(req, env, crypto, parseUser, tu) && ByTelegramId(db.users, tu.id).None?
    requires Login(db, req, env, crypto, parseUser, rnd).0.Authenticated?
    ensures var u := Login(db, req, env, crypto, parseUser, rnd).0.user;
      && u.id == rnd.newId && u.telegramId == tu.id
      && u.username == OrNull(tu.username) && u.firstName == OrNull(tu.firstName)
      && u.lastName == OrNull(tu.lastName) && u.photoUrl == OrNull(tu.photoUrl)
      && u.balance == 0 && u.totalEarned == 0
      && |u.referralCode| == 8 && (forall k :: 0 <= k < 8 ==> IsUpperHexDigit(u.referralCode[k]))
      && u.referredBy == ReferrerFor(db.users, req.referralCode)
      && !HasUser(db.users, u.id)
  {
    UpperHexShape(rnd.codeBytes);
  }

  /** A failed insert is a 500 carrying the database's message, and no bonus is paid. */
  lemma InsertFailureNoBonus(db: Db, req: Request, env: Env, crypto: Crypto, parseUser: string -> Option<TelegramUser>,
                             rnd: Randomness, tu: TelegramUser)
    requires Admitted(req, env, crypto, parseUser, tu) && ByTelegramId(db.users, tu.id).None?
    requires var n := Applicant(tu, ReferralCodeOf(rnd.codeBytes), ReferrerFor(db.users, req.referralCode));
      InsertUser(db, n, rnd.newId).Failure?
    ensures var n := Applicant(tu, ReferralCodeOf(rnd.codeBytes), ReferrerFor(db.users, req.referralCode));
      Login(db, req, env, crypto, parseUser, rnd) == (Error(500, Message(InsertUser(db, n, rnd.newId).error)), db)
  {
  }

  /**
    After a successful first login the new row is appended.  Without a
    referrer nothing else is written.  With one, the referrer is an
    existing row other than the new user, and when the referrer's balance
    and total can take 5.00 more the tables are exactly those of one
    `add_transaction` of a 5.00 `referral_bonus` for the referrer, which
    appends exactly one ledger row; otherwise the failed bonus leaves the
    tables as the insert left them.
  */
  lemma ReferralBonusPaid(db: Db, req: Request, env: Env, crypto: Crypto, parseUser: string -> Option<TelegramUser>,
                          rnd: Randomness, tu: TelegramUser)
    requires Constraints(db)
    requires Admitted(req, env, crypto, parseUser, tu) && ByTelegramId(db.users, tu.id).None?
    requires Login(db, req, env, crypto, parseUser, rnd).0.Authenticated?
    ensures var (resp, db') := Login(db, req, env, crypto, parseUser, rnd);
      var u := resp.user;
      var inserted := Db(db.users + [u], db.transactions);
      && (u.referredBy.None? ==> db' == inserted)
      && (u.referredBy.Some? ==>
            var r := u.referredBy.value;
            && r != u.id && HasUser(db.users, r)
            && (Ledger.CreditFits(db.users, r, ReferralBonusCents) ==>
                  && Ledger.AddTransaction(inserted, r, ReferralBonusCents, "referral_bonus", Some(BonusDescription)) == Success(db')
                  && db'.transactions == db.transactions + [Transaction(r, ReferralBonusCents, ReferralBonus, Some(BonusDescription))])
            && (!Ledger.CreditFits(db.users, r, ReferralBonusCents) ==> db' == inserted))
  {
    var n := Applicant(tu, ReferralCodeOf(rnd.codeBytes), ReferrerFor(db.users, req.referralCode));
    var db1 := InsertUser(db, n, rnd.newId).value;
    var u := Created(n, rnd.newId);
    if u.referredBy.Some? {
      var r := u.referredBy.value;
      ReferrerExists(db.users, req.referralCode);
      HasUserAppend(db.users, u, r);
      Ledger.CreditFitsAppend(db.users, u, r, ReferralBonusCents);
      Ledger.AddTransactionOutcome(db1, r, ReferralBonusCents, "referral_bonus", Some(BonusDescription));
      if Ledger.CreditFits(db.users, r, ReferralBonusCents) {
        Ledger.AddTransactionAppends(db1, r, ReferralBonusCents, "referral_bonus", Some(BonusDescription));
      }
    }
  }

  /**
    When the bonus goes through, the referrer's row, and no other existing
    row, gains 5.00 of balance and of lifetime total, and the new user's
    row follows the existing ones.
  */
  lemma ReferrerCredited(db: Db, req: Request, env: Env, crypto: Crypto, parseUser: string -> Option<TelegramUser>,
                         rnd: Randomness, tu: TelegramUser)
    requires Constraints(db)
    requires Admitted(req, env, crypto, parseUser, tu) && ByTelegramId(db.users, tu.id).None?
    requires Login(db, req, env, crypto, parseUser, rnd).0.Authenticated?
    requires ReferrerFor(db.users, req.referralCode).Some?
    requires Ledger.CreditFits(db.users, ReferrerFor(db.users, req.referralCode).value, ReferralBonusCents)
    ensures var (resp, db') := Login(db, req, env, crypto, parseUser, rnd);
      var r := ReferrerFor(db.users, req.referralCode).value;
      && |db'.users| == |db.users| + 1
      && db'.users[|db.users|] == resp.user
      && (forall k :: 0 <= k < |db.users| && db.users[k].id != r ==> db'.users[k] == db.users[k])
      && (forall k :: 0 <= k < |db.users| && db.users[k].id == r ==>
            db'.users[k] == db.users[k].(balance := db.users[k].balance + ReferralBonusCents,
                                         totalEarned := db.users[k].totalEarned + ReferralBonusCents))
  {
    var n := Applicant(tu, ReferralCodeOf(rnd.codeBytes), ReferrerFor(db.users, req.referralCode));
    var u := Created(n, rnd.newId);
    var db1 := Db(db.users + [u], db.transactions);
    var r := u.referredBy.value;
    ReferralBonusPaid(db, req, env, crypto, parseUser, rnd, tu);
    Ledger.AddTransactionCredits(db1, r, ReferralBonusCents, "referral_bonus", Some(BonusDescription));
    forall k | 0 <= k < |db.users| ensures db1.users[k] == db.users[k] {}
    assert db1.users[|db.users|] == u;
  }

  /**
    A referred first login adds one to the referrer's referral count and,
    when the referrer's balance and total can take the bonus, 5.00 to the
    referrer's referral earnings; otherwise the earnings stay.
  */
  lemma ReferralShowsInStats(db: Db, req: Request, env: Env, crypto: Crypto, parseUser: string -> Option<TelegramUser>,
                             rnd: Randomness, tu: TelegramUser)
    requires Constraints(db)
    requires Admitted(req, env, crypto, parseUser, tu) && ByTelegramId(db.users, tu.id).None?
    requires Login(db, req, env, crypto, parseUser, rnd).0.Authenticated?
    requires ReferrerFor(db.users, req.referralCode).Some?
    ensures var db' := Login(db, req, env, crypto, parseUser, rnd).1;
      var r := ReferrerFor(db.users, req.referralCode).value;
      && ReferralStats.ReferralCount(db'.users, r) == ReferralStats.ReferralCount(db.users, r) + 1
      && ReferralStats.ReferralEarnings(db'.transactions, r) ==
           ReferralStats.ReferralEarnings(db.transactions, r) + (if Ledger.CreditFits(db.users, r, ReferralBonusCents) then ReferralBonusCents else 0)
  {
    var n := Applicant(tu, ReferralCodeOf(rnd.codeBytes), ReferrerFor(db.users, req.referralCode));
    var u := Created(n, rnd.newId);
    var db1 := Db(db.users + [u], db.transactions);
    var r := u.referredBy.value;
    ReferralBonusPaid(db, req, env, crypto, parseUser, rnd, tu);
    ReferralStats.ReferralCountAppend(db.users, u, r);
    if Ledger.CreditFits(db.users, r, ReferralBonusCents) {
      ReferralStats.AddTransactionEffectOnStats(db1, r, ReferralBonusCents, "referral_bonus", Some(BonusDescription), r);
    }
  }

  /** Every login leaves the tables within their constraints. */
  lemma LoginKeepsConstraints(db: Db, req: Request, env: Env, crypto: Crypto, parseUser: string -> Option<TelegramUser>, rnd: Randomness)
    requires Constraints(db) && Ledger.EarningsNonNegative(db.users)
    ensures Constraints(Login(db, req, env, crypto, parseUser, rnd).1)
    ensures Ledger.EarningsNonNegative(Login(db, req, env, crypto, parseUser, rnd).1.users)
  {
    var userData := FirstValue(req.initData, "user");
    if !(IsProduction(env) && !VerifyInitData(req.initData, BotToken(env), crypto)) && userData.Some? && userData.value != "" {
      var parsed := parseUser(userData.value);
      if parsed.Some? && ByTelegramId(db.users, parsed.value.id).None? {
        var tu := parsed.value;
        var n := Applicant(tu, ReferralCodeOf(rnd.codeBytes), ReferrerFor(db.users, req.referralCode));
        var inserted := InsertUser(db, n, rnd.newId);
        if inserted.Success? {
          var db1 := inserted.value;
          InsertUserKeepsConstraints(db, n, rnd.newId);
          Ledger.InsertUserKeepsEarnings(db, n, rnd.newId);
          var u := Created(n, rnd.newId);
          if u.referredBy.Some? {
            var bonus := Ledger.AddTransaction(db1, u.referredBy.value, ReferralBonusCents, "referral_bonus", Some(BonusDescription));
            if bonus.Success? {
              Ledger.AddTransactionKeepsConstraints(db1, u.referredBy.value, ReferralBonusCents, "referral_bonus", Some(BonusDescription));
              Ledger.AddTransactionKeepsEarnings(db1, u.referredBy.value, ReferralBonusCents, "referral_bonus", Some(BonusDescription));
            }
          }
        }
      }
    }
  }

  /** The handler against the store, step by step as the route does it. */
  method Post(store: Database.Store, req: Request, env: Env, crypto: Crypto, parseUser: string -> Option<TelegramUser>,
              rnd: Randomness) returns (response: Response)
    modifies store
    ensures (response, store.State()) == Login(old(store.State()), req, env, crypto, parseUser, rnd)
    ensures old(store.Valid()) ==> store.Valid()
  {
    var botToken := BotToken(env);
    if IsProduction(env) {
      var isValid := VerifyInitData(req.initData, botToken, crypto);
      if !isValid {
        return Error(401, "Invalid Telegram data");
      }
    }
    var userDataStr := FirstValue(req.initData, "user");
    if userDataStr.None? || userDataStr.value == "" {
      return Error(400, "No user data provided");
    }
    var parsed := parseUser(userDataStr.value);
    if parsed.None? {
      return Error(500, "Internal server error");
    }
    var telegramUser := parsed.value;
    var existingUser := ByTelegramId(store.users, telegramUser.id);
    if existingUser.Some? {
      return Authenticated(existingUser.value);
    }
    var newUser := Applicant(telegramUser, ReferralCodeOf(rnd.codeBytes), None);
    if Truthy(req.referralCode) {
      var referrer := ByReferralCode(store.users, ToText(req.referralCode));
      if referrer.Some? {
        newUser := newUser.(referredBy := Some(referrer.value.id));
      }
    }
    assert newUser == Applicant(telegramUser, ReferralCodeOf(rnd.codeBytes), ReferrerFor(store.users, req.referralCode));
    var inserted := store.Insert(newUser, rnd.newId);
    if inserted.Failure? {
      return Error(500, Message(inserted.error));
    }
    var createdUser := inserted.value;
    if createdUser.referredBy.Some? {
      var _ := store.AddTransaction(createdUser.referredBy.value, ReferralBonusCents, "referral_bonus", Some(BonusDescription));
    }
    response := Authenticated(createdUser);
  }
}
