/** `$flip <amount>` and `/flip amount`: a 50/50 bet that wins or loses the stake. */
module Flip {
  import opened Base
  import opened Text
  import opened Ledger
  import GameConfig

  datatype Reply =
    | Usage
    | TooPoor(balance: int)
    | Won(gained: int, newBalance: int)
    | Lost(lost: int, newBalance: int)
    | Failed(error: LedgerError)

  datatype Outcome = Outcome(reply: Reply, store: Store)

  /**
   * One bet once the amount is known: the balance is read through
   * `getBalance` (creating the user), a stake above it is refused, and
   * otherwise the stake is added on a win and removed on a loss.
   */
  function Bet(s: Store, userId: UserId, amount: int, win: bool): (o: Outcome)
    ensures o.reply.TooPoor? <==> OpeningBalance(s, userId) < amount
    ensures o.reply.TooPoor? ==> o.reply.balance == OpeningBalance(s, userId) && o.store == OpenAccount(s, userId)
    ensures o.reply.Won? <==> win && amount > 0 && OpeningBalance(s, userId) >= amount
    ensures o.reply.Won? ==>
      o.reply.gained == amount && o.reply.newBalance == Balance(o.store, userId) == OpeningBalance(s, userId) + amount
    ensures o.reply.Lost? <==> !win && amount > 0 && OpeningBalance(s, userId) >= amount
    ensures o.reply.Lost? ==>
      o.reply.lost == amount && o.reply.newBalance == Balance(o.store, userId) == OpeningBalance(s, userId) - amount
    ensures o.reply.Failed? ==> o.reply.error == NonPositiveAmount && amount <= 0 && o.store == OpenAccount(s, userId)
    ensures !o.reply.Usage?
    ensures SameExcept(s, o.store, {userId})
    ensures NonNegative(s) ==> NonNegative(o.store)
  {
    var current := OpenAccount(s, userId);
    var balance := OpeningBalance(s, userId);
    if balance < amount then Outcome(TooPoor(balance), current)
    else if win then
      match Credit(current, userId, amount)
      case Success(t) => Outcome(Won(amount, Balance(t, userId)), t)
      case Failure(e) => Outcome(Failed(e), current)
    else
      match Debit(current, userId, amount)
      case Success(t) => Outcome(Lost(amount, Balance(t, userId)), t)
      case Failure(e) => Outcome(Failed(e), current)
  }

  /** The flip is fair: a win and a loss on the same accepted stake move the balance by opposite amounts. */
  lemma FlipIsFair(s: Store, userId: UserId, amount: int)
    requires amount > 0 && OpeningBalance(s, userId) >= amount
    ensures Balance(Bet(s, userId, amount, true).store, userId) - OpeningBalance(s, userId)
         == OpeningBalance(s, userId) - Balance(Bet(s, userId, amount, false).store, userId)
  {
  }

  /** The draw `Math.random() < FLIP_WIN_CHANCE`. */
  predicate Wins(random: real): (b: bool)
    ensures b <==> random < 0.5
  {
    random < GameConfig.FlipWinChance
  }

  /** The part both handlers share once they hold an amount; `random` is the draw of `Math.random()`. */
  method Play(coinManager: CoinManager, userId: UserId, amount: int, random: real) returns (reply: Reply)
    requires coinManager.Valid()
    requires 0.0 <= random < 1.0
    modifies coinManager
    ensures coinManager.Valid()
    ensures reply == Bet(old(coinManager.docs), userId, amount, Wins(random)).reply
    ensures coinManager.docs == Bet(old(coinManager.docs), userId, amount, Wins(random)).store
  {
    var balance := coinManager.GetBalance(userId);
    if balance < amount {
      return TooPoor(balance);
    }
    var win := random < GameConfig.FlipWinChance;
    var r;
    if win {
      r := coinManager.AddCoins(userId, amount);
    } else {
      r := coinManager.RemoveCoins(userId, amount);
    }
    match r
    case Success(newBalance) =>
      reply := if win then Won(amount, newBalance) else Lost(amount, newBalance);
    case Failure(e) =>
      reply := Failed(e);
  }

  /** `$flip <amount>`: the usage reply unless `parseInt(args[0])` is a positive number. */
  method PrefixExecute(coinManager: CoinManager, userId: UserId, args: seq<string>, random: real) returns (reply: Reply)
    requires coinManager.Valid()
    requires 0.0 <= random < 1.0
    modifies coinManager
    ensures coinManager.Valid()
    ensures !IsPositiveAmount(ParseArg(args, 0)) ==> reply == Usage && coinManager.docs == old(coinManager.docs)
    ensures IsPositiveAmount(ParseArg(args, 0)) ==>
      var o := Bet(old(coinManager.docs), userId, ParseArg(args, 0).value, Wins(random));
      reply == o.reply && coinManager.docs == o.store
  {
    var amount := ParseArg(args, 0);
    if !IsPositiveAmount(amount) {
      return Usage;
    }
    reply := Play(coinManager, userId, amount.value, random);
  }
}
