/**
 * `$bank_deposit <amount>` and `/bank_deposit amount`: move coins from the
 * main balance to the bank, which turns safe mode on.
 */
module BankDeposit {
  import opened Base
  import opened Text
  import opened Ledger
  import opened Cooldown
  import GameConfig
  import Raid

  datatype Reply =
    | Usage
    | Wait(timeLeft: string)
    | TooPoor(coins: int)
    | Deposited(amount: int, coins: int, bankedCoins: int)
    | Failed(error: LedgerError)

  datatype Outcome = Outcome(reply: Reply, store: Store, cooldowns: map<UserId, int>)

  /**
   * The cooldown the file imports as `BANK_COOLDOWN_MS`. gameConfig.js
   * exports no such name, so the import is `undefined` (here `None`).
   */
  function ImportedCooldown(): (limit: Option<int>)
    ensures limit.None? <==> "BANK_COOLDOWN_MS" !in GameConfig.ExportedNames
  {
    if "BANK_COOLDOWN_MS" in GameConfig.ExportedNames then Some(GameConfig.BankToggleCooldownMs) else None
  }

  /**
   * The gate as written: `lastUsed && (now - lastUsed < limit)`, where a
   * comparison with an `undefined` limit is false.
   */
  predicate GateAsWritten(lastUsed: Option<int>, now: int, limit: Option<int>) {
    lastUsed.Some? && lastUsed.value != 0 && limit.Some? && now - lastUsed.value < limit.value
  }

  /** As written, a deposit is never refused for cooldown, even one millisecond after the last. */
  lemma GateAsWrittenNeverBlocks(lastUsed: Option<int>, now: int)
    ensures ImportedCooldown() == None
    ensures !GateAsWritten(lastUsed, now, ImportedCooldown())
  {
  }

  /** With the exported `BANK_TOGGLE_COOLDOWN_MS` the same gate refuses a second deposit within 24 hours. */
  lemma CorrectedGateBlocks(lastUsed: int)
    requires lastUsed != 0
    ensures !GateAsWritten(Some(lastUsed), lastUsed + 1, ImportedCooldown())
    ensures GateAsWritten(Some(lastUsed), lastUsed + 1, Some(GameConfig.BankToggleCooldownMs))
    ensures OnCooldown(Some(lastUsed), lastUsed + 1, GameConfig.BankToggleCooldownMs)
  {
  }

  /**
   * One deposit at clock reading `now`, with the cooldown gate reading
   * `limit`: `ImportedCooldown()` for the command as shipped, and
   * `Some(BANK_TOGGLE_COOLDOWN_MS)` for the corrected one. A balance below
   * the amount is refused before the ledger is asked, and the time is
   * recorded only after the deposit.
   */
  function MakeDeposit(cooldowns: map<UserId, int>, s: Store, userId: UserId, amount: int, now: int,
                       limit: Option<int>): (o: Outcome)
    ensures o.reply.Wait? <==> GateAsWritten(Get(cooldowns, userId), now, limit)
    ensures limit.Some? ==> (o.reply.Wait? <==> OnCooldown(Get(cooldowns, userId), now, limit.value))
    ensures o.reply.TooPoor? <==> !o.reply.Wait? && Balance(s, userId) < amount
    ensures o.reply.TooPoor? ==> o.reply.coins == Balance(s, userId)
    ensures o.reply.Failed? <==> !o.reply.Wait? && Balance(s, userId) >= amount && amount <= 0
    ensures o.reply.Deposited? ==>
      userId in o.store && o.store[userId].isBanked
      && o.reply.amount == amount
      && o.reply.coins == Balance(o.store, userId) == Balance(s, userId) - amount
      && o.reply.bankedCoins == o.store[userId].bankedCoins
      && o.reply.bankedCoins == (if userId in s then s[userId].bankedCoins else 0) + amount
      && o.cooldowns == cooldowns[userId := now]
    ensures !o.reply.Deposited? ==> o.store == s && o.cooldowns == cooldowns
    ensures !o.reply.Usage?
    ensures SameExcept(s, o.store, {userId})
    ensures NonNegative(s) ==> NonNegative(o.store)
  {
    var lastUsed := Get(cooldowns, userId);
    if GateAsWritten(lastUsed, now, limit) then
      var timeLeft := RemainingMs(lastUsed, now, limit.value);
      Outcome(Wait(DurationText(SplitHms(timeLeft))), s, cooldowns)
    else
      var account := AccountOf(s, userId);
      if account.coins < amount then Outcome(TooPoor(account.coins), s, cooldowns)
      else
        match DepositTxn(s, userId, amount)
        case Failure(e) => Outcome(Failed(e), s, cooldowns)
        case Success(t) =>
          Outcome(Deposited(amount, Balance(t, userId), t[userId].bankedCoins), t, cooldowns[userId := now])
  }

  /**
   * As shipped, a deposit is accepted again one millisecond after the last
   * one whenever the main balance still covers it.
   */
  lemma AsWrittenDepositsRepeat(cooldowns: map<UserId, int>, s: Store, userId: UserId, amount: int, now: int,
                                again: int)
    requires MakeDeposit(cooldowns, s, userId, amount, now, ImportedCooldown()).reply.Deposited?
    requires 0 < again <= Balance(MakeDeposit(cooldowns, s, userId, amount, now, ImportedCooldown()).store, userId)
    ensures var first := MakeDeposit(cooldowns, s, userId, amount, now, ImportedCooldown());
      MakeDeposit(first.cooldowns, first.store, userId, again, now + 1, ImportedCooldown()).reply.Deposited?
  {
    var first := MakeDeposit(cooldowns, s, userId, amount, now, ImportedCooldown());
    GateAsWrittenNeverBlocks(Get(first.cooldowns, userId), now + 1);
  }

  /**
   * With `BANK_TOGGLE_COOLDOWN_MS`, a deposit made at a non-zero clock
   * reading refuses every further deposit for the next 24 hours, and the
   * refusal changes neither the collection nor the cooldown map.
   */
  lemma CorrectedOneDepositPerDay(cooldowns: map<UserId, int>, s: Store, userId: UserId, amount: int, now: int,
                                  again: int, later: int)
    requires MakeDeposit(cooldowns, s, userId, amount, now, Some(GameConfig.BankToggleCooldownMs)).reply.Deposited?
    requires now != 0 && now <= later < now + GameConfig.BankToggleCooldownMs
    ensures var first := MakeDeposit(cooldowns, s, userId, amount, now, Some(GameConfig.BankToggleCooldownMs));
      var second := MakeDeposit(first.cooldowns, first.store, userId, again, later, Some(GameConfig.BankToggleCooldownMs));
      second.reply.Wait? && second.store == first.store && second.cooldowns == first.cooldowns
  {
    var first := MakeDeposit(cooldowns, s, userId, amount, now, Some(GameConfig.BankToggleCooldownMs));
    assert Get(first.cooldowns, userId) == Some(now);
  }

  /** A deposit conserves the user's total of main and bank balance. */
  lemma DepositConservesTotal(cooldowns: map<UserId, int>, s: Store, userId: UserId, amount: int, now: int,
                              limit: Option<int>)
    requires MakeDeposit(cooldowns, s, userId, amount, now, limit).reply.Deposited?
    ensures var r := MakeDeposit(cooldowns, s, userId, amount, now, limit).reply;
      r.coins + r.bankedCoins == Balance(s, userId) + (if userId in s then s[userId].bankedCoins else 0)
  {
  }

  /** After a deposit the user is in safe mode: no raid, in either role, moves their coins. */
  lemma DepositProtectsFromRaids(cooldowns: map<UserId, int>, s: Store, userId: UserId, amount: int, now: int,
                                 limit: Option<int>, raids: map<UserId, int>, otherId: UserId, later: int,
                                 random: real)
    requires MakeDeposit(cooldowns, s, userId, amount, now, limit).reply.Deposited?
    ensures var t := MakeDeposit(cooldowns, s, userId, amount, now, limit).store;
      Raid.Raid(raids, t, otherId, userId, later, random).store == t
      && Raid.Raid(raids, t, userId, otherId, later, random).store == t
  {
  }

  /**
   * The command object: the coin manager it was built with, the cooldown
   * its gate reads (`ImportedCooldown()` as shipped) and the module's
   * `depositCooldowns` map.
   */
  class BankDepositCommand {
    const coinManager: CoinManager
    const limit: Option<int>
    var cooldowns: map<UserId, int>

    constructor (coinManager: CoinManager, limit: Option<int>)
      ensures this.coinManager == coinManager && this.limit == limit && cooldowns == map[]
    {
      this.coinManager := coinManager;
      this.limit := limit;
      cooldowns := map[];
    }

    /** `executeCommand` at clock reading `now`; the slash handler calls it with its integer option. */
    method ExecuteCommand(userId: UserId, amount: int, now: int) returns (reply: Reply)
      requires coinManager.Valid()
      modifies this, coinManager
      ensures coinManager.Valid()
      ensures var o := MakeDeposit(old(cooldowns), old(coinManager.docs), userId, amount, now, limit);
        reply == o.reply && coinManager.docs == o.store && cooldowns == o.cooldowns
    {
      var lastUsed := Get(cooldowns, userId);
      if lastUsed.Some? && lastUsed.value != 0 && limit.Some? && now - lastUsed.value < limit.value {
        var timeLeft := RemainingMs(lastUsed, now, limit.value);
        return Wait(DurationText(SplitHms(timeLeft)));
      }
      var userData := coinManager.GetUserData(userId);
      if userData.coins < amount {
        return TooPoor(userData.coins);
      }
      var r := coinManager.DepositCoins(userId, amount);
      match r
      case Failure(e) =>
        reply := Failed(e);
      case Success(d) =>
        cooldowns := cooldowns[userId := now];
        reply := Deposited(amount, d.coins, d.bankedCoins);
    }

    /** `$bank_deposit <amount>`: the usage reply unless `parseInt(args[0])` is a positive number. */
    method PrefixExecute(userId: UserId, args: seq<string>, now: int) returns (reply: Reply)
      requires coinManager.Valid()
      modifies this, coinManager
      ensures coinManager.Valid()
      ensures !IsPositiveAmount(ParseArg(args, 0)) ==>
        reply == Usage && coinManager.docs == old(coinManager.docs) && cooldowns == old(cooldowns)
      ensures IsPositiveAmount(ParseArg(args, 0)) ==>
        var o := MakeDeposit(old(cooldowns), old(coinManager.docs), userId, ParseArg(args, 0).value, now, limit);
        reply == o.reply && coinManager.docs == o.store && cooldowns == o.cooldowns
    {
      var amount := ParseArg(args, 0);
      if !IsPositiveAmount(amount) {
        return Usage;
      }
      reply := ExecuteCommand(userId, amount.value, now);
    }
  }
}
