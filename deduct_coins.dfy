/** `$deduct_coins <@user> <amount>` and `/deduct_coins target amount`: the bot owner debits a user. */
module DeductCoins {
  import opened Base
  import opened Text
  import opened Ledger

  datatype Reply =
    | Usage
    | Forbidden
    | Deducted(amount: int, newBalance: int)
    | Failed(error: LedgerError)

  datatype Outcome = Outcome(reply: Reply, store: Store)

  /**
   * Only the user whose id is the `BOT_OWNER_ID` environment variable
   * (`ownerId`, `None` when unset) may run the command; then the amount
   * goes through the ledger's own checks.
   */
  function Adjust(s: Store, ownerId: Option<UserId>, executorId: UserId, targetId: UserId, amount: int): (o: Outcome)
    ensures o.reply.Forbidden? <==> ownerId != Some(executorId)
    ensures o.reply.Deducted? <==> ownerId == Some(executorId) && Debit(s, targetId, amount).Success?
    ensures o.reply.Deducted? ==>
      o.reply.amount == amount && o.reply.newBalance == Balance(o.store, targetId) == Balance(s, targetId) - amount
    ensures o.reply.Failed? ==> o.reply.error == Debit(s, targetId, amount).error
    ensures !o.reply.Deducted? ==> o.store == s
    ensures !o.reply.Usage?
    ensures SameExcept(s, o.store, {targetId})
    ensures NonNegative(s) ==> NonNegative(o.store)
  {
    if ownerId != Some(executorId) then Outcome(Forbidden, s)
    else
      match Debit(s, targetId, amount)
      case Success(t) => Outcome(Deducted(amount, Balance(t, targetId)), t)
      case Failure(e) => Outcome(Failed(e), s)
  }

  /** With `BOT_OWNER_ID` unset nobody may run the command. */
  lemma UnsetOwnerForbidsEveryone(s: Store, executorId: UserId, targetId: UserId, amount: int)
    ensures Adjust(s, None, executorId, targetId, amount) == Outcome(Forbidden, s)
  {
  }

  /** `executeCommand`; the slash handler calls it with its user and integer options. */
  method ExecuteCommand(coinManager: CoinManager, ownerId: Option<UserId>, executorId: UserId, targetId: UserId, amount: int)
    returns (reply: Reply)
    requires coinManager.Valid()
    modifies coinManager
    ensures coinManager.Valid()
    ensures reply == Adjust(old(coinManager.docs), ownerId, executorId, targetId, amount).reply
    ensures coinManager.docs == Adjust(old(coinManager.docs), ownerId, executorId, targetId, amount).store
  {
    if ownerId != Some(executorId) {
      return Forbidden;
    }
    var r := coinManager.RemoveCoins(targetId, amount);
    match r
    case Success(newBalance) => reply := Deducted(amount, newBalance);
    case Failure(e) => reply := Failed(e);
  }

  /**
   * The prefix form: the first mentioned user (`mentioned`, `None` when the
   * message mentions nobody) and `parseInt(args[1])` must both be present and
   * the amount positive.
   */
  method PrefixExecute(coinManager: CoinManager, ownerId: Option<UserId>, executorId: UserId,
                       mentioned: Option<UserId>, args: seq<string>) returns (reply: Reply)
    requires coinManager.Valid()
    modifies coinManager
    ensures coinManager.Valid()
    ensures mentioned.None? || !IsPositiveAmount(ParseArg(args, 1)) ==>
      reply == Usage && coinManager.docs == old(coinManager.docs)
    ensures mentioned.Some? && IsPositiveAmount(ParseArg(args, 1)) ==>
      var o := Adjust(old(coinManager.docs), ownerId, executorId, mentioned.value, ParseArg(args, 1).value);
      reply == o.reply && coinManager.docs == o.store
  {
    var amount := ParseArg(args, 1);
    if mentioned.None? || !IsPositiveAmount(amount) {
      return Usage;
    }
    reply := ExecuteCommand(coinManager, ownerId, executorId, mentioned.value, amount.value);
  }
}
