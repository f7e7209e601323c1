/** `!give @user <amount>`: transfer coins from the author to the mentioned user. */
module Give {
  import opened Base
  import opened Text
  import opened Ledger

  datatype Reply =
    | Usage
    | InvalidMention
    | SelfGive
    | InvalidAmount
    | UnknownReceiver
    | Gave(amount: int)
    | NotEnough(amount: int)
    | Failed(error: LedgerError)

  datatype Request = Request(receiverId: UserId, amount: int)

  datatype Outcome = Outcome(reply: Reply, store: Store)

  /**
   * The argument checks, in order: exactly two arguments, a mention with a
   * digit in it (all other characters are dropped), not the author, and a
   * positive `parseInt` of the amount.
   */
  function Validate(senderId: UserId, args: seq<string>): (r: Result<Request, Reply>)
    ensures r.Success? <==>
      |args| == 2 && StripNonDigits(args[0]) != [] && StripNonDigits(args[0]) != senderId
      && IsPositiveAmount(ParseInt(args[1]))
    ensures r.Success? ==> AllDigits(r.value.receiverId) && r.value.receiverId != senderId && r.value.amount > 0
    ensures |args| != 2 ==> r == Failure(Usage)
    ensures |args| == 2 && StripNonDigits(args[0]) == [] ==> r == Failure(InvalidMention)
    ensures |args| == 2 && StripNonDigits(args[0]) != [] && StripNonDigits(args[0]) == senderId ==> r == Failure(SelfGive)
    ensures (|args| == 2 && StripNonDigits(args[0]) != [] && StripNonDigits(args[0]) != senderId
             && !IsPositiveAmount(ParseInt(args[1]))) ==> r == Failure(InvalidAmount)
    ensures r.Success? ==> r.value == Request(StripNonDigits(args[0]), ParseInt(args[1]).value)
    ensures r.Failure? ==> r.error.Usage? || r.error.InvalidMention? || r.error.SelfGive? || r.error.InvalidAmount?
  {
    if |args| != 2 then Failure(Usage)
    else
      var receiverId := StripNonDigits(args[0]);
      if receiverId == [] then Failure(InvalidMention)
      else if senderId == receiverId then Failure(SelfGive)
      else
        var amount := ParseInt(args[1]);
        if !IsPositiveAmount(amount) then Failure(InvalidAmount)
        else Success(Request(receiverId, amount.value))
  }

  /** A Discord mention of another user and a decimal amount are accepted as that user and that amount. */
  lemma MentionAndAmountAccepted(senderId: UserId, receiverId: string, amount: nat)
    requires receiverId != [] && AllDigits(receiverId) && receiverId != senderId
    requires amount > 0
    ensures Validate(senderId, ["<@" + receiverId + ">", NatToString(amount)]) == Success(Request(receiverId, amount))
    ensures Validate(senderId, ["<@!" + receiverId + ">", NatToString(amount)]) == Success(Request(receiverId, amount))
  {
    MentionStripsToId(receiverId);
    ParseIntOfDecimal(amount, []);
    assert NatToString(amount) + [] == NatToString(amount);
  }

  /**
   * The whole command: after validation the receiver is looked up on
   * Discord (`receiverFound`), then `transferCoins` moves the coins, whose
   * `false` answer is the "not enough coins" reply.
   */
  function Give(s: Store, senderId: UserId, args: seq<string>, receiverFound: bool): (o: Outcome)
    ensures Validate(senderId, args).Failure? ==> o == Outcome(Validate(senderId, args).error, s)
    ensures o.reply.UnknownReceiver? <==> Validate(senderId, args).Success? && !receiverFound
    ensures Validate(senderId, args).Success? && receiverFound ==>
      (o.reply.Gave? || o.reply.NotEnough?)
      && (o.reply.Gave? <==> Balance(s, senderId) >= Validate(senderId, args).value.amount)
    ensures o.reply.Gave? ==>
      var req := Validate(senderId, args).value;
      Transfer(s, senderId, req.receiverId, req.amount).Success?
      && o.store == Transfer(s, senderId, req.receiverId, req.amount).value
      && SameExcept(s, o.store, {senderId, req.receiverId})
    ensures o.reply.Gave? ==>
      var req := Validate(senderId, args).value;
      receiverFound && o.reply.amount == req.amount
      && Balance(o.store, senderId) == Balance(s, senderId) - req.amount
      && Balance(o.store, req.receiverId) == Balance(s, req.receiverId) + req.amount
    ensures o.reply.NotEnough? ==> o.store == s && Balance(s, senderId) < Validate(senderId, args).value.amount
    ensures !o.reply.Failed?
    ensures !o.reply.Gave? ==> o.store == s
    ensures NonNegative(s) ==> NonNegative(o.store)
  {
    match Validate(senderId, args)
    case Failure(reply) => Outcome(reply, s)
    case Success(req) =>
      if !receiverFound then Outcome(UnknownReceiver, s)
      else
        match Transfer(s, senderId, req.receiverId, req.amount)
        case Success(t) => Outcome(Gave(req.amount), t)
        case Failure(InsufficientFunds) => Outcome(NotEnough(req.amount), s)
        case Failure(e) => Outcome(Failed(e), s)
  }

  /** A sender the ledger has never seen holds 0 coins, so any gift is refused and creates nobody. */
  lemma UnknownSenderCannotGive(s: Store, senderId: UserId, args: seq<string>)
    requires senderId !in s && Validate(senderId, args).Success?
    ensures Give(s, senderId, args, true) == Outcome(NotEnough(Validate(senderId, args).value.amount), s)
  {
  }

  /** `execute(message, args)`; `receiverFound` is whether `client.users.fetch` found the receiver. */
  method Execute(coinManager: CoinManager, senderId: UserId, args: seq<string>, receiverFound: bool) returns (reply: Reply)
    requires coinManager.Valid()
    modifies coinManager
    ensures coinManager.Valid()
    ensures reply == Give(old(coinManager.docs), senderId, args, receiverFound).reply
    ensures coinManager.docs == Give(old(coinManager.docs), senderId, args, receiverFound).store
  {
    if |args| != 2 {
      return Usage;
    }
    var receiverId := StripNonDigits(args[0]);
    if receiverId == [] {
      return InvalidMention;
    }
    if senderId == receiverId {
      return SelfGive;
    }
    var amount := ParseInt(args[1]);
    if amount.None? || amount.value <= 0 {
      return InvalidAmount;
    }
    if !receiverFound {
      return UnknownReceiver;
    }
    var success := coinManager.TransferCoins(senderId, receiverId, amount.value);
    match success
    case Success(true) => reply := Gave(amount.value);
    case Success(false) => reply := NotEnough(amount.value);
    case Failure(e) => reply := Failed(e);
  }
}
