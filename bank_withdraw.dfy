/** `/bank_withdraw`: leave safe mode. Only the flag changes; the bank balance stays where it is. */
module BankWithdraw {
  import opened Ledger

  datatype Reply = NotBanked | Withdrawn

  datatype Outcome = Outcome(reply: Reply, store: Store)

  /** A user not in safe mode is told so; otherwise `setBankedStatus(id, false)`. */
  function Withdraw(s: Store, userId: UserId): (o: Outcome)
    ensures o.reply.NotBanked? <==> !AccountOf(s, userId).isBanked
    ensures o.reply.NotBanked? ==> o.store == s
    ensures !AccountOf(o.store, userId).isBanked
    ensures Balance(o.store, userId) == Balance(s, userId)
    ensures userId in s ==> userId in o.store && o.store[userId] == s[userId].(isBanked := false)
    ensures SameExcept(s, o.store, {userId})
    ensures NonNegative(s) ==> NonNegative(o.store)
  {
    if !AccountOf(s, userId).isBanked then Outcome(NotBanked, s)
    else Outcome(Withdrawn, WriteBanked(s, userId, false))
  }

  /** Withdrawing twice is the same as withdrawing once; the second attempt is told the user is not banked. */
  lemma WithdrawIdempotent(s: Store, userId: UserId)
    ensures Withdraw(Withdraw(s, userId).store, userId) == Outcome(NotBanked, Withdraw(s, userId).store)
  {
  }

  /** `executeCommand`, reached from the slash handler after it defers. */
  method ExecuteCommand(coinManager: CoinManager, userId: UserId) returns (reply: Reply)
    requires coinManager.Valid()
    modifies coinManager
    ensures coinManager.Valid()
    ensures reply == Withdraw(old(coinManager.docs), userId).reply
    ensures coinManager.docs == Withdraw(old(coinManager.docs), userId).store
  {
    var userData := coinManager.GetUserData(userId);
    if !userData.isBanked {
      return NotBanked;
    }
    coinManager.SetBankedStatus(userId, false);
    reply := Withdrawn;
  }
}
