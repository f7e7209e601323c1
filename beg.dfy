/** `$beg` and `/beg`: a random 1 to 1000 coins once every 5 minutes per user. */
module Beg {
  import opened Base
  import opened Ledger
  import opened Cooldown
  import GameConfig

  datatype Reply =
    | Wait(timeLeft: string)
    | Begged(reward: int, newBalance: int)
    | Failed(error: LedgerError)

  datatype Outcome = Outcome(reply: Reply, store: Store, cooldowns: map<UserId, int>)

  /** `Math.floor(Math.random() * (MAX_BEG_REWARD - MIN_BEG_REWARD + 1)) + MIN_BEG_REWARD`. */
  function Reward(random: real): (r: int)
    requires 0.0 <= random < 1.0
    ensures GameConfig.MinBegReward <= r <= GameConfig.MaxBegReward
  {
    (random * (GameConfig.MaxBegReward - GameConfig.MinBegReward + 1) as real).Floor + GameConfig.MinBegReward
  }

  /** Every reward from 1 to 1000 is drawn for some value of `Math.random()`. */
  lemma EveryRewardReachable(reward: int)
    requires GameConfig.MinBegReward <= reward <= GameConfig.MaxBegReward
    ensures var random := (reward - 1) as real / 1000.0; 0.0 <= random < 1.0 && Reward(random) == reward
  {
    var random := (reward - 1) as real / 1000.0;
    assert random * 1000.0 == (reward - 1) as real;
  }

  /**
   * One attempt at clock reading `now` with the draw `random`. Inside the
   * cooldown the reply gives minutes and seconds left and nothing changes;
   * otherwise the reward is credited and only then is the time recorded.
   */
  function Attempt(cooldowns: map<UserId, int>, s: Store, userId: UserId, now: int, random: real): (o: Outcome)
    requires 0.0 <= random < 1.0
    ensures o.reply.Wait? <==> OnCooldown(Get(cooldowns, userId), now, GameConfig.BegCooldownMs)
    ensures o.reply.Wait? ==> o.store == s && o.cooldowns == cooldowns
    ensures o.reply.Wait? ==>
      (o.reply.timeLeft == [] <==> RemainingMs(Get(cooldowns, userId), now, GameConfig.BegCooldownMs) < GameConfig.Second)
    ensures o.reply.Begged? ==>
      1 <= o.reply.reward <= 1000 && o.reply.reward == Reward(random)
      && o.reply.newBalance == Balance(o.store, userId) == Balance(s, userId) + o.reply.reward
      && o.cooldowns == cooldowns[userId := now]
    ensures o.reply.Failed? ==> o.store == s && o.cooldowns == cooldowns
    ensures NonNegative(s) ==> !o.reply.Failed?
    ensures SameExcept(s, o.store, {userId})
    ensures NonNegative(s) ==> NonNegative(o.store)
  {
    var lastUsed := Get(cooldowns, userId);
    if OnCooldown(lastUsed, now, GameConfig.BegCooldownMs) then
      var timeLeft := RemainingMs(lastUsed, now, GameConfig.BegCooldownMs);
      DurationTextEmptyBelowOneSecond(timeLeft);
      Outcome(Wait(DurationText(SplitMs(timeLeft))), s, cooldowns)
    else
      var reward := Reward(random);
      match Credit(s, userId, reward)
      case Success(t) => Outcome(Begged(reward, Balance(t, userId)), t, cooldowns[userId := now])
      case Failure(e) => Outcome(Failed(e), s, cooldowns)
  }

  /** While the clock does not run backwards the wait never reads more than 5 minutes. */
  lemma WaitAtMostFiveMinutes(cooldowns: map<UserId, int>, userId: UserId, now: int)
    requires OnCooldown(Get(cooldowns, userId), now, GameConfig.BegCooldownMs)
    requires now >= Get(cooldowns, userId).value
    ensures SplitMs(RemainingMs(Get(cooldowns, userId), now, GameConfig.BegCooldownMs)).minutes <= 5
  {
  }

  /** The command object: the coin manager it was built with and the module's `begCooldowns` map. */
  class BegCommand {
    const coinManager: CoinManager
    var cooldowns: map<UserId, int>

    constructor (coinManager: CoinManager)
      ensures this.coinManager == coinManager && cooldowns == map[]
    {
      this.coinManager := coinManager;
      cooldowns := map[];
    }

    /** `executeCommand` at clock reading `now` with the draw `random`; both handlers call it unchanged. */
    method ExecuteCommand(userId: UserId, now: int, random: real) returns (reply: Reply)
      requires coinManager.Valid()
      requires 0.0 <= random < 1.0
      modifies this, coinManager
      ensures coinManager.Valid()
      ensures var o := Attempt(old(cooldowns), old(coinManager.docs), userId, now, random);
        reply == o.reply && coinManager.docs == o.store && cooldowns == o.cooldowns
    {
      var lastUsed := Get(cooldowns, userId);
      if lastUsed.Some? && lastUsed.value != 0 && now - lastUsed.value < GameConfig.BegCooldownMs {
        var timeLeft := RemainingMs(lastUsed, now, GameConfig.BegCooldownMs);
        var parts := SplitMs(timeLeft);
        return Wait(DurationText(parts));
      }
      assert !OnCooldown(lastUsed, now, GameConfig.BegCooldownMs);
      var reward := Reward(random);
      var r := coinManager.AddCoins(userId, reward);
      match r
      case Success(newBalance) =>
        cooldowns := cooldowns[userId := now];
        reply := Begged(reward, newBalance);
      case Failure(e) =>
        reply := Failed(e);
    }
  }
}
