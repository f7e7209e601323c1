/**
 * `/raid target`: with even odds the raider takes a quarter of the target's
 * coins, or pays a quarter of their own to the target. The raider then waits
 * an hour.
 */
module Raid {
  import opened Base
  import opened Ledger
  import opened Cooldown
  import GameConfig

  datatype Reply =
    | Wait(timeLeft: string)
    | SelfRaid
    | RaiderBanked
    | TargetBanked
    | TooPoor
    | NothingToTake
    | NothingToLose
    | Stole(amount: int, raiderBalance: int, targetBalance: int)
    | Paid(amount: int, raiderBalance: int, targetBalance: int)
    | Failed(error: LedgerError)

  datatype Outcome = Outcome(reply: Reply, store: Store, cooldowns: map<UserId, int>)

  /** `Math.min(Math.floor(coins * RAID_MAX_PERCENTAGE), coins)`: a quarter, rounded down. */
  function RaidAmount(coins: int): (amount: int)
    ensures coins >= 0 ==> amount == coins / 4
    ensures coins >= GameConfig.MinRaidBalance ==> 25 <= amount <= coins
  {
    Min(((coins as real) * GameConfig.RaidMaxPercentage).Floor, coins)
  }

  /** The draw `Math.random() < RAID_SUCCESS_CHANCE`. */
  predicate Succeeds(random: real): (b: bool)
    ensures b <==> random < 0.5
  {
    random < GameConfig.RaidSuccessChance
  }

  /** The collection after `transferCoins` whose boolean answer raid.js ignores. */
  function Moved(s: Store, senderId: UserId, receiverId: UserId, amount: int): (r: Result<Store, LedgerError>)
    ensures r.Failure? <==> amount <= 0
    ensures r.Failure? ==> r.error == NonPositiveAmount
    ensures r.Success? && Transfer(s, senderId, receiverId, amount).Success? ==> r.value == Transfer(s, senderId, receiverId, amount).value
    ensures r.Success? && Transfer(s, senderId, receiverId, amount).Failure? ==> r.value == s
  {
    match Transfer(s, senderId, receiverId, amount)
    case Success(t) => Success(t)
    case Failure(NonPositiveAmount) => Failure(NonPositiveAmount)
    case Failure(InsufficientFunds) => Success(s)
  }

  /**
   * One raid by `raiderId` on `targetId` at clock reading `now` with the draw
   * `random`, checked in the order of raid.js: the raider's cooldown, a raid
   * on oneself, safe mode of either side, the 100-coin floor; then the
   * transfer, and only after a transfer the raider's cooldown is set.
   */
  function Raid(cooldowns: map<UserId, int>, s: Store, raiderId: UserId, targetId: UserId, now: int, random: real): (o: Outcome)
    ensures o.reply.Wait? <==> OnCooldown(Get(cooldowns, raiderId), now, GameConfig.RaidCooldownMs)
    ensures o.reply.SelfRaid? <==> !o.reply.Wait? && raiderId == targetId
    ensures o.reply.RaiderBanked? <==> !o.reply.Wait? && raiderId != targetId && AccountOf(s, raiderId).isBanked
    ensures o.reply.TargetBanked? <==>
      !o.reply.Wait? && raiderId != targetId && !AccountOf(s, raiderId).isBanked && AccountOf(s, targetId).isBanked
    ensures o.reply.Stole? || o.reply.Paid? <==>
      !OnCooldown(Get(cooldowns, raiderId), now, GameConfig.RaidCooldownMs) && raiderId != targetId
      && !AccountOf(s, raiderId).isBanked && !AccountOf(s, targetId).isBanked
      && Balance(s, raiderId) >= GameConfig.MinRaidBalance && Balance(s, targetId) >= GameConfig.MinRaidBalance
    ensures o.reply.Stole? ==>
      Succeeds(random) && o.reply.amount == Balance(s, targetId) / 4 && o.reply.amount >= 25
      && o.reply.raiderBalance == Balance(o.store, raiderId) == Balance(s, raiderId) + o.reply.amount
      && o.reply.targetBalance == Balance(o.store, targetId) == Balance(s, targetId) - o.reply.amount
    ensures o.reply.Paid? ==>
      !Succeeds(random) && o.reply.amount == Balance(s, raiderId) / 4 && o.reply.amount >= 25
      && o.reply.raiderBalance == Balance(o.store, raiderId) == Balance(s, raiderId) - o.reply.amount
      && o.reply.targetBalance == Balance(o.store, targetId) == Balance(s, targetId) + o.reply.amount
    ensures !o.reply.NothingToTake? && !o.reply.NothingToLose? && !o.reply.Failed?
    ensures o.cooldowns == if o.reply.Stole? || o.reply.Paid? then cooldowns[raiderId := now] else cooldowns
    ensures !(o.reply.Stole? || o.reply.Paid?) ==> o.store == s
    ensures SameExcept(s, o.store, {raiderId, targetId})
    ensures Balance(o.store, raiderId) + Balance(o.store, targetId) == Balance(s, raiderId) + Balance(s, targetId)
    ensures AccountOf(s, raiderId).isBanked || AccountOf(s, targetId).isBanked ==> o.store == s
    ensures NonNegative(s) ==> NonNegative(o.store)
  {
    var lastUsed := Get(cooldowns, raiderId);
    if OnCooldown(lastUsed, now, GameConfig.RaidCooldownMs) then
      var timeLeft := RemainingMs(lastUsed, now, GameConfig.RaidCooldownMs);
      Outcome(Wait(DurationText(SplitHms(timeLeft))), s, cooldowns)
    else if raiderId == targetId then Outcome(SelfRaid, s, cooldowns)
    else
      var raider := AccountOf(s, raiderId);
      var target := AccountOf(s, targetId);
      if raider.isBanked then Outcome(RaiderBanked, s, cooldowns)
      else if target.isBanked then Outcome(TargetBanked, s, cooldowns)
      else if raider.coins < GameConfig.MinRaidBalance || target.coins < GameConfig.MinRaidBalance then
        Outcome(TooPoor, s, cooldowns)
      else Attempt(cooldowns, s, raiderId, targetId, now, random)
  }

  /**
   * The draw once every check has passed: a success takes a quarter of the
   * target's coins, a failure pays a quarter of the raider's; both start the
   * raider's cooldown. With at least 100 coins on each side the quarter is
   * never 0 and the transfer never fails.
   */
  function Attempt(cooldowns: map<UserId, int>, s: Store, raiderId: UserId, targetId: UserId, now: int, random: real): (o: Outcome)
    requires raiderId != targetId
    requires Balance(s, raiderId) >= GameConfig.MinRaidBalance && Balance(s, targetId) >= GameConfig.MinRaidBalance
    ensures o.reply.Stole? <==> Succeeds(random)
    ensures o.reply.Paid? <==> !Succeeds(random)
    ensures o.reply.Stole? ==>
      o.reply.amount == Balance(s, targetId) / 4 && o.reply.amount >= 25
      && o.reply.raiderBalance == Balance(o.store, raiderId) == Balance(s, raiderId) + o.reply.amount
      && o.reply.targetBalance == Balance(o.store, targetId) == Balance(s, targetId) - o.reply.amount
    ensures o.reply.Paid? ==>
      o.reply.amount == Balance(s, raiderId) / 4 && o.reply.amount >= 25
      && o.reply.raiderBalance == Balance(o.store, raiderId) == Balance(s, raiderId) - o.reply.amount
      && o.reply.targetBalance == Balance(o.store, targetId) == Balance(s, targetId) + o.reply.amount
    ensures o.cooldowns == cooldowns[raiderId := now]
    ensures SameExcept(s, o.store, {raiderId, targetId})
    ensures Balance(o.store, raiderId) + Balance(o.store, targetId) == Balance(s, raiderId) + Balance(s, targetId)
    ensures NonNegative(s) ==> NonNegative(o.store)
  {
    if Succeeds(random) then
      var amount := RaidAmount(Balance(s, targetId));
      if amount == 0 then Outcome(NothingToTake, s, cooldowns)
      else
        match Moved(s, targetId, raiderId, amount)
        case Failure(e) => Outcome(Failed(e), s, cooldowns)
        case Success(t) =>
          Outcome(Stole(amount, Balance(t, raiderId), Balance(t, targetId)), t, cooldowns[raiderId := now])
    else
      var amount := RaidAmount(Balance(s, raiderId));
      if amount == 0 then Outcome(NothingToLose, s, cooldowns)
      else
        match Moved(s, raiderId, targetId, amount)
        case Failure(e) => Outcome(Failed(e), s, cooldowns)
        case Success(t) =>
          Outcome(Paid(amount, Balance(t, raiderId), Balance(t, targetId)), t, cooldowns[raiderId := now])
  }

  /** After a raid that moved coins at a non-zero time, the raider's next raid within the hour is refused and changes nothing. */
  lemma OneRaidPerHour(cooldowns: map<UserId, int>, s: Store, raiderId: UserId, targetId: UserId, otherId: UserId,
                       now: int, later: int, random: real, random2: real)
    requires now != 0 && now <= later < now + GameConfig.RaidCooldownMs
    requires Raid(cooldowns, s, raiderId, targetId, now, random).reply.Stole?
          || Raid(cooldowns, s, raiderId, targetId, now, random).reply.Paid?
    ensures var first := Raid(cooldowns, s, raiderId, targetId, now, random);
      var second := Raid(first.cooldowns, first.store, raiderId, otherId, later, random2);
      second.reply.Wait? && second.store == first.store
  {
  }

  /** The command object: the coin manager it was built with and the module's `raidCooldowns` map. */
  class RaidCommand {
    const coinManager: CoinManager
    var cooldowns: map<UserId, int>

    constructor (coinManager: CoinManager)
      ensures this.coinManager == coinManager && cooldowns == map[]
    {
      this.coinManager := coinManager;
      cooldowns := map[];
    }

    /** `executeCommand` at clock reading `now` with the draw `random`. */
    method ExecuteCommand(raiderId: UserId, targetId: UserId, now: int, random: real) returns (reply: Reply)
      requires coinManager.Valid()
      modifies this, coinManager
      ensures coinManager.Valid()
      ensures var o := Raid(old(cooldowns), old(coinManager.docs), raiderId, targetId, now, random);
        reply == o.reply && coinManager.docs == o.store && cooldowns == o.cooldowns
    {
      var lastUsed := Get(cooldowns, raiderId);
      if lastUsed.Some? && lastUsed.value != 0 && now - lastUsed.value < GameConfig.RaidCooldownMs {
        var timeLeft := RemainingMs(lastUsed, now, GameConfig.RaidCooldownMs);
        return Wait(DurationText(SplitHms(timeLeft)));
      }
      if raiderId == targetId {
        return SelfRaid;
      }
      var raider := coinManager.GetUserData(raiderId);
      var target := coinManager.GetUserData(targetId);
      if raider.isBanked {
        return RaiderBanked;
      }
      if target.isBanked {
        return TargetBanked;
      }
      if raider.coins < GameConfig.MinRaidBalance || target.coins < GameConfig.MinRaidBalance {
        return TooPoor;
      }
      var success := random < GameConfig.RaidSuccessChance;
      var amount;
      if success {
        amount := RaidAmount(target.coins);
        if amount == 0 {
          return NothingToTake;
        }
        var moved := coinManager.TransferCoins(targetId, raiderId, amount);
        match moved
        case Failure(e) => return Failed(e);
        case Success(_) =>
      } else {
        amount := RaidAmount(raider.coins);
        if amount == 0 {
          return NothingToLose;
        }
        var moved := coinManager.TransferCoins(raiderId, targetId, amount);
        match moved
        case Failure(e) => return Failed(e);
        case Success(_) =>
      }
      cooldowns := cooldowns[raiderId := now];
      var updatedRaider := coinManager.GetUserData(raiderId);
      var updatedTarget := coinManager.GetUserData(targetId);
      reply := if success then Stole(amount, updatedRaider.coins, updatedTarget.coins)
               else Paid(amount, updatedRaider.coins, updatedTarget.coins);
    }
  }
}
