/** `$roll <amount>` and `/roll amount`: a six wins five times the stake, anything else loses the stake. */
module Roll {
  import opened Base
  import opened Text
  import opened Ledger
  import GameConfig

  datatype Reply =
    | Usage
    | TooPoor(balance: int)
    | Won(diceRoll: int, winnings: int, newBalance: int)
    | Lost(diceRoll: int, lost: int, newBalance: int)
    | Failed(error: LedgerError)

  datatype Outcome = Outcome(reply: Reply, store: Store)

  /** `Math.floor(Math.random() * 6) + 1`. */
  function DiceRoll(random: real): (d: int)
    requires 0.0 <= random < 1.0
    ensures 1 <= d <= 6
  {
    (random * 6.0).Floor + 1
  }

  /**
   * One roll once the amount is known: the balance is read through
   * `getBalance` (creating the user), a stake above it is refused, a six adds
   * `amount * (ROLL_WIN_MULTIPLIER - 1)` and any other face removes the stake.
   */
  function Bet(s: Store, userId: UserId, amount: int, diceRoll: int): (o: Outcome)
    ensures o.reply.TooPoor? <==> OpeningBalance(s, userId) < amount
    ensures o.reply.TooPoor? ==> o.reply.balance == OpeningBalance(s, userId) && o.store == OpenAccount(s, userId)
    ensures o.reply.Won? <==> diceRoll == GameConfig.RollWinCondition && amount > 0 && OpeningBalance(s, userId) >= amount
    ensures o.reply.Won? ==>
      o.reply.diceRoll == diceRoll && o.reply.winnings == 5 * amount
      && o.reply.newBalance == Balance(o.store, userId) == OpeningBalance(s, userId) + 5 * amount
    ensures o.reply.Lost? <==> diceRoll != GameConfig.RollWinCondition && amount > 0 && OpeningBalance(s, userId) >= amount
    ensures o.reply.Lost? ==>
      o.reply.diceRoll == diceRoll && o.reply.lost == amount
      && o.reply.newBalance == Balance(o.store, userId) == OpeningBalance(s, userId) - amount
    ensures o.reply.Failed? ==> o.reply.error == NonPositiveAmount && amount <= 0 && o.store == OpenAccount(s, userId)
    ensures !o.reply.Usage?
    ensures SameExcept(s, o.store, {userId})
    ensures NonNegative(s) ==> NonNegative(o.store)
  {
    var current := OpenAccount(s, userId);
    var balance := OpeningBalance(s, userId);
    if balance < amount then Outcome(TooPoor(balance), current)
    else if diceRoll == GameConfig.RollWinCondition then
      var winnings := amount * (GameConfig.RollWinMultiplier - 1);
      match Credit(current, userId, winnings)
      case Success(t) => Outcome(Won(diceRoll, winnings, Balance(t, userId)), t)
      case Failure(e) => Outcome(Failed(e), current)
    else
      match Debit(current, userId, amount)
      case Success(t) => Outcome(Lost(diceRoll, amount, Balance(t, userId)), t)
      case Failure(e) => Outcome(Failed(e), current)
  }

  /** The change of the player's balance after the roll `diceRoll`. */
  function Gain(s: Store, userId: UserId, amount: int, diceRoll: int): (g: int)
    ensures amount > 0 && OpeningBalance(s, userId) >= amount ==>
      g == if diceRoll == 6 then 5 * amount else 0 - amount
  {
    Balance(Bet(s, userId, amount, diceRoll).store, userId) - OpeningBalance(s, userId)
  }

  /** The roll is fair: over the six equally likely faces the balance changes sum to zero. */
  lemma RollIsFair(s: Store, userId: UserId, amount: int)
    requires amount > 0 && OpeningBalance(s, userId) >= amount
    ensures Gain(s, userId, amount, 1) + Gain(s, userId, amount, 2) + Gain(s, userId, amount, 3)
          + Gain(s, userId, amount, 4) + Gain(s, userId, amount, 5) + Gain(s, userId, amount, 6) == 0
  {
  }

  /** The part both handlers share once they hold an amount; `random` is the draw of `Math.random()`. */
  method Play(coinManager: CoinManager, userId: UserId, amount: int, random: real) returns (reply: Reply)
    requires coinManager.Valid()
    requires 0.0 <= random < 1.0
    modifies coinManager
    ensures coinManager.Valid()
    ensures reply == Bet(old(coinManager.docs), userId, amount, DiceRoll(random)).reply
    ensures coinManager.docs == Bet(old(coinManager.docs), userId, amount, DiceRoll(random)).store
  {
    var balance := coinManager.GetBalance(userId);
    if balance < amount {
      return TooPoor(balance);
    }
    var diceRoll := (random * 6.0).Floor + 1;
    if diceRoll == GameConfig.RollWinCondition {
      var winnings := amount * (GameConfig.RollWinMultiplier - 1);
      var r := coinManager.AddCoins(userId, winnings);
      match r
      case Success(newBalance) => reply := Won(diceRoll, winnings, newBalance);
      case Failure(e) => reply := Failed(e);
    } else {
      var r := coinManager.RemoveCoins(userId, amount);
      match r
      case Success(newBalance) => reply := Lost(diceRoll, amount, newBalance);
      case Failure(e) => reply := Failed(e);
    }
  }

  /** `$roll <amount>`: the usage reply unless `parseInt(args[0])` is a positive number. */
  method PrefixExecute(coinManager: CoinManager, userId: UserId, args: seq<string>, random: real) returns (reply: Reply)
    requires coinManager.Valid()
    requires 0.0 <= random < 1.0
    modifies coinManager
    ensures coinManager.Valid()
    ensures !IsPositiveAmount(ParseArg(args, 0)) ==> reply == Usage && coinManager.docs == old(coinManager.docs)
    ensures IsPositiveAmount(ParseArg(args, 0)) ==>
      var o := Bet(old(coinManager.docs), userId, ParseArg(args, 0).value, DiceRoll(random));
      reply == o.reply && coinManager.docs == o.store
  {
    var amount := ParseArg(args, 0);
    if !IsPositiveAmount(amount) {
      return Usage;
    }
    reply := Play(coinManager, userId, amount.value, random);
  }
}
