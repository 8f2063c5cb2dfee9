/**
  The application configuration of lib/config.ts: reward constants read from
  the environment with literal fallbacks, the ad-network switch, and the
  withdrawal threshold test.  Points are JavaScript numbers; a setting that
  does not parse is NaN (`None`), and every comparison with NaN is false.
*/
module Config {
  import opened Wrappers
  import opened JsValues

  /** The process environment: variable name to value. */
  type Env = map<string, string>

  const PointsPerAdViewVar := "NEXT_PUBLIC_POINTS_PER_AD_VIEW"
  const ReferrerBonusVar := "NEXT_PUBLIC_REFERRAL_BONUS_REFERRER"
  const RefereeBonusVar := "NEXT_PUBLIC_REFERRAL_BONUS_REFEREE"
  const MinWithdrawalVar := "NEXT_PUBLIC_MIN_WITHDRAWAL_POINTS"
  const ZoneIdVar := "NEXT_PUBLIC_MONETAG_ZONE_ID"
  const BotTokenVar := "TELEGRAM_BOT_TOKEN"
  const ApiUrlVar := "NEXT_PUBLIC_API_URL"
  const DefaultZoneId := "10042745"

  /** `process.env[name] || fallback`: an unset or empty variable falls back. */
  function Setting(env: Env, name: string, fallback: string): string {
    if name in env && env[name] != "" then env[name] else fallback
  }

  /** `Number.parseInt(process.env[name] || fallback)`. */
  function IntSetting(env: Env, name: string, fallback: string): Option<int> {
    ParseInt(Setting(env, name, fallback))
  }

  datatype Referral = Referral(referrer: Option<int>, referee: Option<int>)
  datatype Rewards = Rewards(adView: Option<int>, referral: Referral, minWithdrawal: Option<int>)
  datatype Monetag = Monetag(zoneId: string, enabled: bool)
  datatype Telegram = Telegram(botToken: string, webAppUrl: string)
  datatype Features = Features(enableReferrals: bool, enableLeaderboard: bool, enableWithdrawals: bool)
  datatype AppConfig = AppConfig(rewards: Rewards, monetag: Monetag, telegram: Telegram,
                                 apiBaseUrl: string, features: Features)

  /** The `config` object, evaluated once against the environment. */
  function Load(env: Env): AppConfig {
    AppConfig(
      Rewards(
        IntSetting(env, PointsPerAdViewVar, "10"),
        Referral(IntSetting(env, ReferrerBonusVar, "500"), IntSetting(env, RefereeBonusVar, "250")),
        IntSetting(env, MinWithdrawalVar, "1000")),
      Monetag(Setting(env, ZoneIdVar, DefaultZoneId), ZoneIdVar in env && env[ZoneIdVar] != ""),
      Telegram(Setting(env, BotTokenVar, ""), Setting(env, ApiUrlVar, "")),
      Setting(env, ApiUrlVar, ""),
      Features(true, true, true))
  }

  /** `canWithdraw(points)`: `points >= config.rewards.minWithdrawal`. */
  predicate CanWithdraw(cfg: AppConfig, points: real) {
    match cfg.rewards.minWithdrawal
    case None => false
    case Some(min) => points >= min as real
  }

  /** A variable set to the numeral of `n` configures exactly `n`. */
  lemma IntSettingOverride(env: Env, name: string, fallback: string, n: int)
    requires name in env && env[name] == DecimalString(n)
    ensures IntSetting(env, name, fallback) == Some(n)
  {
    ParseIntDecimalString(n);
  }

  /** An unset variable configures the number its fallback literal denotes. */
  lemma IntSettingDefault(env: Env, name: string, n: int)
    requires name !in env
    ensures IntSetting(env, name, DecimalString(n)) == Some(n)
  {
    ParseIntDecimalString(n);
  }

  /** With nothing set: 10 points per ad, 500 and 250 referral points, 1000 to withdraw. */
  lemma DefaultRewards()
    ensures Load(map[]).rewards == Rewards(Some(10), Referral(Some(500), Some(250)), Some(1000))
  {
    assert DecimalString(10) == "10";
    assert DecimalString(500) == "500";
    assert DecimalString(250) == "250";
    assert DecimalString(1000) == "1000";
    IntSettingDefault(map[], PointsPerAdViewVar, 10);
    IntSettingDefault(map[], ReferrerBonusVar, 500);
    IntSettingDefault(map[], RefereeBonusVar, 250);
    IntSettingDefault(map[], MinWithdrawalVar, 1000);
  }

  /** With nothing set, 999 points cannot be withdrawn and 1000 can. */
  lemma DefaultWithdrawalThreshold()
    ensures !CanWithdraw(Load(map[]), 999.0) && CanWithdraw(Load(map[]), 1000.0)
  {
    DefaultRewards();
  }

  /** Once `points` may be withdrawn, so may any larger amount. */
  lemma CanWithdrawMonotone(cfg: AppConfig, p: real, q: real)
    requires CanWithdraw(cfg, p) && p <= q
    ensures CanWithdraw(cfg, q)
  {
  }

  /** A threshold configured as `n` lets exactly the amounts `>= n` through. */
  lemma ConfiguredThreshold(env: Env, n: int, points: real)
    requires MinWithdrawalVar in env && env[MinWithdrawalVar] == DecimalString(n)
    ensures CanWithdraw(Load(env), points) <==> points >= n as real
  {
    IntSettingOverride(env, MinWithdrawalVar, "1000", n);
  }

  /** A threshold that is not a number (NaN) blocks every withdrawal. */
  lemma UnparsableThreshold(env: Env, points: real)
    requires MinWithdrawalVar in env && env[MinWithdrawalVar] != ""
    requires ParseInt(env[MinWithdrawalVar]) == None
    ensures !CanWithdraw(Load(env), points)
  {
  }

  /** Ads are on only when the zone variable is set; the zone id still falls back to a constant. */
  lemma MonetagSwitch(env: Env)
    ensures Load(env).monetag.enabled <==> ZoneIdVar in env && env[ZoneIdVar] != ""
    ensures !Load(env).monetag.enabled ==> Load(env).monetag.zoneId == DefaultZoneId
    ensures Load(env).monetag.enabled ==> Load(env).monetag.zoneId == env[ZoneIdVar]
  {
  }
}
