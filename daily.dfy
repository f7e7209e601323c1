/** `$daily` and `/daily`: 5000 coins once every 24 hours per user. */
module Daily {
  import opened Base
  import opened Ledger
  import opened Cooldown
  import GameConfig

  datatype Reply =
    | Wait(timeLeft: string)
    | Claimed(reward: int, newBalance: int)
    | Failed(error: LedgerError)

  datatype Outcome = Outcome(reply: Reply, store: Store, cooldowns: map<UserId, int>)

  /**
   * One claim at clock reading `now`. Inside the cooldown the reply says how
   * long is left and nothing changes; otherwise `addCoins` credits the reward
   * (a user never seen before is created with the reward alone, not with the
   * default balance) and only then is the claim time recorded.
   */
  function Claim(cooldowns: map<UserId, int>, s: Store, userId: UserId, now: int): (o: Outcome)
    ensures o.reply.Wait? <==> OnCooldown(Get(cooldowns, userId), now, GameConfig.DailyCooldownMs)
    ensures o.reply.Wait? ==> o.store == s && o.cooldowns == cooldowns
    ensures o.reply.Wait? ==>
      (o.reply.timeLeft == [] <==> RemainingMs(Get(cooldowns, userId), now, GameConfig.DailyCooldownMs) < GameConfig.Second)
    ensures o.reply.Claimed? ==>
      o.reply.reward == GameConfig.DailyReward
      && o.reply.newBalance == Balance(o.store, userId) == Balance(s, userId) + GameConfig.DailyReward
      && o.cooldowns == cooldowns[userId := now]
    ensures o.reply.Failed? ==> o.store == s && o.cooldowns == cooldowns
    ensures NonNegative(s) ==> !o.reply.Failed?
    ensures SameExcept(s, o.store, {userId})
    ensures NonNegative(s) ==> NonNegative(o.store)
  {
    var lastUsed := Get(cooldowns, userId);
    if OnCooldown(lastUsed, now, GameConfig.DailyCooldownMs) then
      var timeLeft := RemainingMs(lastUsed, now, GameConfig.DailyCooldownMs);
      DurationTextEmptyBelowOneSecond(timeLeft);
      Outcome(Wait(DurationText(SplitHms(timeLeft))), s, cooldowns)
    else
      match Credit(s, userId, GameConfig.DailyReward)
      case Success(t) => Outcome(Claimed(GameConfig.DailyReward, Balance(t, userId)), t, cooldowns[userId := now])
      case Failure(e) => Outcome(Failed(e), s, cooldowns)
  }

  /** A user whose first command is `daily` is stored with 5000 coins, and `getBalance` then reports 5000, not 15000. */
  lemma FirstCommandDaily(cooldowns: map<UserId, int>, s: Store, userId: UserId, now: int)
    requires userId !in s && userId !in cooldowns
    ensures Claim(cooldowns, s, userId, now).reply == Claimed(GameConfig.DailyReward, GameConfig.DailyReward)
    ensures OpeningBalance(Claim(cooldowns, s, userId, now).store, userId) == GameConfig.DailyReward
  {
  }

  /** After a claim at a non-zero time, every claim in the next 24 hours waits and changes nothing. */
  lemma OneClaimPerDay(cooldowns: map<UserId, int>, s: Store, userId: UserId, now: int, later: int)
    requires NonNegative(s)
    requires now != 0 && now <= later < now + GameConfig.DailyCooldownMs
    requires !OnCooldown(Get(cooldowns, userId), now, GameConfig.DailyCooldownMs)
    ensures var first := Claim(cooldowns, s, userId, now);
      var second := Claim(first.cooldowns, first.store, userId, later);
      first.reply.Claimed? && second.reply.Wait? && second.store == first.store
  {
  }

  /** The cooldown is recorded by claim time, so the claim 24 hours later is accepted again. */
  lemma ClaimAgainAfterADay(cooldowns: map<UserId, int>, s: Store, userId: UserId, now: int)
    requires NonNegative(s) && now != 0
    requires !OnCooldown(Get(cooldowns, userId), now, GameConfig.DailyCooldownMs)
    ensures var first := Claim(cooldowns, s, userId, now);
      var second := Claim(first.cooldowns, first.store, userId, now + GameConfig.DailyCooldownMs);
      second.reply == Claimed(GameConfig.DailyReward, Balance(s, userId) + 2 * GameConfig.DailyReward)
  {
  }

  /** The command object: the coin manager it was built with and the module's `dailyCooldowns` map. */
  class DailyCommand {
    const coinManager: CoinManager
    var cooldowns: map<UserId, int>

    constructor (coinManager: CoinManager)
      ensures this.coinManager == coinManager && cooldowns == map[]
    {
      this.coinManager := coinManager;
      cooldowns := map[];
    }

    /** `executeCommand` at clock reading `now`; both the prefix and the slash handler call it unchanged. */
    method ExecuteCommand(userId: UserId, now: int) returns (reply: Reply)
      requires coinManager.Valid()
      modifies this, coinManager
      ensures coinManager.Valid()
      ensures var o := Claim(old(cooldowns), old(coinManager.docs), userId, now);
        reply == o.reply && coinManager.docs == o.store && cooldowns == o.cooldowns
    {
      var lastUsed := Get(cooldowns, userId);
      if lastUsed.Some? && lastUsed.value != 0 && now - lastUsed.value < GameConfig.DailyCooldownMs {
        var timeLeft := RemainingMs(lastUsed, now, GameConfig.DailyCooldownMs);
        var parts := SplitHms(timeLeft);
        return Wait(DurationText(parts));
      }
      assert !OnCooldown(lastUsed, now, GameConfig.DailyCooldownMs);
      var r := coinManager.AddCoins(userId, GameConfig.DailyReward);
      match r
      case Success(newBalance) =>
        cooldowns := cooldowns[userId := now];
        reply := Claimed(GameConfig.DailyReward, newBalance);
      case Failure(e) =>
        reply := Failed(e);
    }
  }
}
