/**
 * The coin ledger: `CoinManager` over the `users` collection.
 *
 * The collection is a map from user id to document. Every `runTransaction`
 * of the source is one atomic step: a transaction function (`UpdateTxn`,
 * `TransferTxn`, ...) computes the new collection from a snapshot, and the
 * `CoinManager` methods install it. A thrown error is a `Failure`.
 */
module Ledger {
  import opened Base
  import GameConfig

  type UserId = string

  /**
   * The `coins` field of a document. Anything that is not a number (the field
   * missing, `null`) reads as 0 both through `typeof ... === 'number'` and
   * through `|| 0`.
   */
  datatype Coins = Num(n: int) | NotNumber

  /**
   * A user document. coinManager.js writes only `coins`; `isBanked`,
   * `bankedCoins` and `pets` are the fields the bank and shop commands use.
   */
  datatype UserDoc = UserDoc(coins: Coins, isBanked: bool, bankedCoins: int, pets: seq<string>)

  type Store = map<UserId, UserDoc>

  /** The errors the ledger throws: a non-positive amount, or a balance that would go below zero. */
  datatype LedgerError = NonPositiveAmount | InsufficientFunds

  /** One entry of `getAllUserBalances`. */
  datatype UserBalance = UserBalance(userId: UserId, coins: int)

  /** What `getUserData` reports to the commands. */
  datatype Account = Account(coins: int, isBanked: bool)

  /** What `buyPet` reports: the new balance and the pets now owned. */
  datatype Purchase = Purchase(newBalance: int, ownedPets: seq<string>)

  /** What `depositCoins` reports: the new main and bank balances. */
  datatype Deposit = Deposit(coins: int, bankedCoins: int)

  function CoinsOf(doc: UserDoc): int {
    if doc.coins.Num? then doc.coins.n else 0
  }

  /** The balance a transaction reads: a missing document counts as 0. */
  function Balance(s: Store, id: UserId): (b: int)
    ensures id in s && s[id].coins.Num? ==> b == s[id].coins.n
    ensures !(id in s && s[id].coins.Num?) ==> b == 0
  {
    if id in s then CoinsOf(s[id]) else 0
  }

  /** The ledger's invariant: no stored balance is negative. */
  predicate NonNegative(s: Store) {
    forall id :: id in s ==> CoinsOf(s[id]) >= 0
  }

  /** `s` and `t` hold the same documents, except possibly those of `ids`. */
  ghost predicate SameExcept(s: Store, t: Store, ids: set<UserId>) {
    forall id :: id !in ids ==> (id in s <==> id in t) && (id in s ==> s[id] == t[id])
  }

  function NewUser(): UserDoc {
    UserDoc(Num(GameConfig.DefaultBalance), false, 0, [])
  }

  /** `set({coins: n}, {merge: true})`: only the coins field of `id` changes; a missing document is created with it alone. */
  function WriteCoins(s: Store, id: UserId, n: int): (t: Store)
    ensures id in t && Balance(t, id) == n
    ensures SameExcept(s, t, {id})
    ensures id in s ==> t[id] == s[id].(coins := Num(n))
  {
    s[id := if id in s then s[id].(coins := Num(n)) else UserDoc(Num(n), false, 0, [])]
  }

  // ------------------------------------------------------------------ getBalance

  /** The collection after `getBalance(id)`: an unknown user is created with the default balance; a known one is only read. */
  function OpenAccount(s: Store, id: UserId): (t: Store)
    ensures id in t && SameExcept(s, t, {id})
    ensures id in s ==> t == s
    ensures id !in s ==> t[id] == NewUser()
    ensures NonNegative(s) ==> NonNegative(t)
  {
    if id in s then s else s[id := NewUser()]
  }

  /** What `getBalance(id)` returns. */
  function OpeningBalance(s: Store, id: UserId): (b: int)
    ensures b == Balance(OpenAccount(s, id), id)
    ensures id !in s ==> b == GameConfig.DefaultBalance
    ensures NonNegative(s) ==> b >= 0
  {
    if id in s then CoinsOf(s[id]) else GameConfig.DefaultBalance
  }

  /** A second `getBalance` neither re-initialises the user nor reads a different balance. */
  lemma GetBalanceIdempotent(s: Store, id: UserId)
    ensures OpenAccount(OpenAccount(s, id), id) == OpenAccount(s, id)
    ensures OpeningBalance(OpenAccount(s, id), id) == OpeningBalance(s, id)
    ensures id !in s ==> OpeningBalance(OpenAccount(s, id), id) == GameConfig.DefaultBalance
  {
  }

  // ------------------------------------------------------------------ transactions

  /** The transaction of `updateCoins`: read the balance (0 if missing), refuse a result below zero, write the sum. */
  function UpdateTxn(s: Store, id: UserId, delta: int): (r: Result<Store, LedgerError>)
    ensures r.Success? <==> Balance(s, id) + delta >= 0
    ensures r.Failure? ==> r.error == InsufficientFunds
    ensures r.Success? ==> id in r.value && Balance(r.value, id) == Balance(s, id) + delta
    ensures r.Success? ==> SameExcept(s, r.value, {id})
    ensures r.Success? && NonNegative(s) ==> NonNegative(r.value)
  {
    var currentCoins := Balance(s, id);
    var newCoins := currentCoins + delta;
    if newCoins < 0 then Failure(InsufficientFunds) else Success(WriteCoins(s, id, newCoins))
  }

  /**
   * The transaction of `transferCoins`: both balances are read first, then
   * the sender's and the receiver's new balances are written in that order,
   * so when the two ids are equal the receiver's write wins.
   */
  function TransferTxn(s: Store, senderId: UserId, receiverId: UserId, amount: int): (r: Result<Store, LedgerError>)
    ensures r.Success? <==> Balance(s, senderId) >= amount
    ensures r.Failure? ==> r.error == InsufficientFunds
    ensures r.Success? ==> senderId in r.value && receiverId in r.value
    ensures r.Success? ==> SameExcept(s, r.value, {senderId, receiverId})
    ensures r.Success? && senderId != receiverId ==>
      Balance(r.value, senderId) == Balance(s, senderId) - amount
      && Balance(r.value, receiverId) == Balance(s, receiverId) + amount
    ensures r.Success? && senderId == receiverId ==>
      Balance(r.value, senderId) == Balance(s, senderId) + amount
    ensures r.Success? && NonNegative(s) && amount > 0 ==> NonNegative(r.value)
  {
    var senderCoins := Balance(s, senderId);
    var receiverCoins := Balance(s, receiverId);
    if senderCoins < amount then Failure(InsufficientFunds)
    else
      var afterSender := WriteCoins(s, senderId, senderCoins - amount);
      Success(WriteCoins(afterSender, receiverId, receiverCoins + amount))
  }

  /** `addCoins`: a non-positive amount throws before any read; otherwise `updateCoins` with `+amount`. */
  function Credit(s: Store, id: UserId, amount: int): (r: Result<Store, LedgerError>)
    ensures r.Success? <==> amount > 0 && Balance(s, id) + amount >= 0
    ensures amount <= 0 ==> r == Failure(NonPositiveAmount)
    ensures r.Success? ==> Balance(r.value, id) == Balance(s, id) + amount && SameExcept(s, r.value, {id})
    ensures NonNegative(s) ==> (r.Success? <==> amount > 0)
    ensures r.Success? && NonNegative(s) ==> NonNegative(r.value)
  {
    if amount <= 0 then Failure(NonPositiveAmount) else UpdateTxn(s, id, amount)
  }

  /** `removeCoins`: a non-positive amount throws; otherwise `updateCoins` with `-amount`, which may reach exactly 0. */
  function Debit(s: Store, id: UserId, amount: int): (r: Result<Store, LedgerError>)
    ensures r.Success? <==> amount > 0 && Balance(s, id) >= amount
    ensures amount <= 0 ==> r == Failure(NonPositiveAmount)
    ensures amount > 0 && Balance(s, id) < amount ==> r == Failure(InsufficientFunds)
    ensures r.Success? ==> Balance(r.value, id) == Balance(s, id) - amount && SameExcept(s, r.value, {id})
    ensures r.Success? && NonNegative(s) ==> NonNegative(r.value)
  {
    if amount <= 0 then Failure(NonPositiveAmount) else UpdateTxn(s, id, -amount)
  }

  /** `transferCoins`: a non-positive amount throws; otherwise the transfer transaction. */
  function Transfer(s: Store, senderId: UserId, receiverId: UserId, amount: int): (r: Result<Store, LedgerError>)
    ensures r.Success? <==> amount > 0 && Balance(s, senderId) >= amount
    ensures amount <= 0 ==> r == Failure(NonPositiveAmount)
    ensures amount > 0 && Balance(s, senderId) < amount ==> r == Failure(InsufficientFunds)
    ensures r.Success? && senderId != receiverId ==>
      Balance(r.value, senderId) + Balance(r.value, receiverId) == Balance(s, senderId) + Balance(s, receiverId)
    ensures r.Success? ==> SameExcept(s, r.value, {senderId, receiverId})
    ensures r.Success? && NonNegative(s) ==> NonNegative(r.value)
  {
    if amount <= 0 then Failure(NonPositiveAmount) else TransferTxn(s, senderId, receiverId, amount)
  }

  /** Giving to oneself is not refused by the ledger: the receiver's write wins and the balance grows by the amount. */
  lemma SelfTransferMints(s: Store, id: UserId, amount: int)
    requires amount > 0 && Balance(s, id) >= amount
    ensures Transfer(s, id, id, amount).Success?
    ensures Balance(Transfer(s, id, id, amount).value, id) == Balance(s, id) + amount
  {
  }

  // ------------------------------------------------------------------ collaborators of the commands

  /** `getUserData(id)`: the balance as transactions read it and the safe-mode flag (false when unset). */
  function AccountOf(s: Store, id: UserId): (a: Account)
    ensures a.coins == Balance(s, id)
    ensures a.isBanked ==> id in s
  {
    Account(Balance(s, id), id in s && s[id].isBanked)
  }

  /** `setBankedStatus(id, banked)`: a merge write of the `isBanked` field alone. */
  function WriteBanked(s: Store, id: UserId, banked: bool): (t: Store)
    ensures id in t && AccountOf(t, id) == Account(Balance(s, id), banked)
    ensures SameExcept(s, t, {id})
    ensures id in s ==> t[id] == s[id].(isBanked := banked)
    ensures NonNegative(s) ==> NonNegative(t)
  {
    s[id := if id in s then s[id].(isBanked := banked) else UserDoc(NotNumber, banked, 0, [])]
  }

  /** `buyPet(id, pet, price)`: one debit of `price` that also appends `pet`; on failure neither happens. */
  function PurchaseTxn(s: Store, id: UserId, pet: string, price: int): (r: Result<Store, LedgerError>)
    ensures r.Success? <==> price > 0 && Balance(s, id) >= price
    ensures price <= 0 ==> r == Failure(NonPositiveAmount)
    ensures price > 0 && Balance(s, id) < price ==> r == Failure(InsufficientFunds)
    ensures r.Success? ==> id in r.value && Balance(r.value, id) == Balance(s, id) - price
    ensures r.Success? ==> r.value[id].pets == (if id in s then s[id].pets else []) + [pet]
    ensures r.Success? ==> SameExcept(s, r.value, {id})
    ensures r.Success? && NonNegative(s) ==> NonNegative(r.value)
  {
    match Debit(s, id, price)
    case Failure(e) => Failure(e)
    case Success(t) => Success(t[id := t[id].(pets := t[id].pets + [pet])])
  }

  /** `depositCoins(id, amount)`: moves `amount` from the main balance to the bank balance and turns safe mode on. */
  function DepositTxn(s: Store, id: UserId, amount: int): (r: Result<Store, LedgerError>)
    ensures r.Success? <==> amount > 0 && Balance(s, id) >= amount
    ensures r.Success? ==> id in r.value && Balance(r.value, id) == Balance(s, id) - amount
    ensures r.Success? ==> r.value[id].bankedCoins == (if id in s then s[id].bankedCoins else 0) + amount
    ensures r.Success? ==> r.value[id].isBanked
    ensures r.Success? ==> SameExcept(s, r.value, {id})
    ensures r.Success? && NonNegative(s) ==> NonNegative(r.value)
  {
    match Debit(s, id, amount)
    case Failure(e) => Failure(e)
    case Success(t) => Success(t[id := t[id].(isBanked := true, bankedCoins := t[id].bankedCoins + amount)])
  }

  // ------------------------------------------------------------------ any sequence of ledger calls

  /** A ledger call as the commands issue it. */
  datatype Op =
    | GetBalanceOp(id: UserId)
    | AddOp(id: UserId, amount: int)
    | RemoveOp(id: UserId, amount: int)
    | TransferOp(senderId: UserId, receiverId: UserId, amount: int)
    | BuyPetOp(id: UserId, pet: string, price: int)
    | DepositOp(id: UserId, amount: int)
    | SetBankedOp(id: UserId, banked: bool)

  /** The collection after one call; a call that throws leaves it as it was. */
  function Apply(s: Store, op: Op): Store {
    match op
    case GetBalanceOp(id) => OpenAccount(s, id)
    case AddOp(id, amount) => (var r := Credit(s, id, amount); if r.Success? then r.value else s)
    case RemoveOp(id, amount) => (var r := Debit(s, id, amount); if r.Success? then r.value else s)
    case TransferOp(a, b, amount) => (var r := Transfer(s, a, b, amount); if r.Success? then r.value else s)
    case BuyPetOp(id, pet, price) => (var r := PurchaseTxn(s, id, pet, price); if r.Success? then r.value else s)
    case DepositOp(id, amount) => (var r := DepositTxn(s, id, amount); if r.Success? then r.value else s)
    case SetBankedOp(id, banked) => WriteBanked(s, id, banked)
  }

  function Run(s: Store, ops: seq<Op>): Store
    decreases |ops|
  {
    if ops == [] then s else Run(Apply(s, ops[0]), ops[1..])
  }

  lemma ApplyKeepsNonNegative(s: Store, op: Op)
    requires NonNegative(s)
    ensures NonNegative(Apply(s, op))
  {
  }

  /** No sequence of ledger calls, successful or not, ever leaves a negative balance. */
  lemma {:induction false} RunKeepsNonNegative(s: Store, ops: seq<Op>)
    requires NonNegative(s)
    ensures NonNegative(Run(s, ops))
    decreases |ops|
  {
    if ops != [] {
      ApplyKeepsNonNegative(s, ops[0]);
      RunKeepsNonNegative(Apply(s, ops[0]), ops[1..]);
    }
  }

  // ------------------------------------------------------------------ the service object

  class CoinManager {
    /** The `users` collection. */
    var docs: Store

    ghost predicate Valid()
      reads this
    {
      NonNegative(docs)
    }

    /** A manager over an empty `users` collection. */
    constructor ()
      ensures docs == map[] && Valid()
    {
      docs := map[];
    }

    /** `getBalance`: reads the balance, creating the user with 10000 coins when unknown. */
    method GetBalance(userId: UserId) returns (balance: int)
      requires Valid()
      modifies this
      ensures Valid()
      ensures docs == OpenAccount(old(docs), userId)
      ensures balance == OpeningBalance(old(docs), userId)
      ensures balance >= 0
    {
      if userId in docs {
        var data := docs[userId];
        balance := if data.coins.Num? then data.coins.n else 0;
      } else {
        docs := docs[userId := NewUser()];
        balance := GameConfig.DefaultBalance;
      }
    }

    /** `updateCoins`: one atomic read-modify-write that refuses a result below zero. */
    method UpdateCoins(userId: UserId, delta: int) returns (r: Result<int, LedgerError>)
      requires Valid()
      modifies this
      ensures Valid()
      ensures UpdateTxn(old(docs), userId, delta).Success? ==>
        docs == UpdateTxn(old(docs), userId, delta).value && r == Success(old(Balance(docs, userId)) + delta)
      ensures UpdateTxn(old(docs), userId, delta).Failure? ==>
        docs == old(docs) && r == Failure(InsufficientFunds)
    {
      var currentCoins := if userId in docs then CoinsOf(docs[userId]) else 0;
      var newCoins := currentCoins + delta;
      if newCoins < 0 {
        return Failure(InsufficientFunds);
      }
      docs := WriteCoins(docs, userId, newCoins);
      r := Success(newCoins);
    }

    /** `addCoins`. */
    method AddCoins(userId: UserId, amount: int) returns (r: Result<int, LedgerError>)
      requires Valid()
      modifies this
      ensures Valid()
      ensures Credit(old(docs), userId, amount).Success? ==>
        docs == Credit(old(docs), userId, amount).value && r == Success(Balance(docs, userId))
      ensures Credit(old(docs), userId, amount).Failure? ==>
        docs == old(docs) && r == Failure(Credit(old(docs), userId, amount).error)
    {
      if amount <= 0 {
        return Failure(NonPositiveAmount);
      }
      r := UpdateCoins(userId, amount);
    }

    /** `removeCoins`. */
    method RemoveCoins(userId: UserId, amount: int) returns (r: Result<int, LedgerError>)
      requires Valid()
      modifies this
      ensures Valid()
      ensures Debit(old(docs), userId, amount).Success? ==>
        docs == Debit(old(docs), userId, amount).value && r == Success(Balance(docs, userId))
      ensures Debit(old(docs), userId, amount).Failure? ==>
        docs == old(docs) && r == Failure(Debit(old(docs), userId, amount).error)
    {
      if amount <= 0 {
        return Failure(NonPositiveAmount);
      }
      r := UpdateCoins(userId, -amount);
    }

    /**
     * `transferCoins`: throws on a non-positive amount; otherwise answers
     * whether the transfer transaction committed (insufficient funds is `false`).
     */
    method TransferCoins(senderId: UserId, receiverId: UserId, amount: int) returns (r: Result<bool, LedgerError>)
      requires Valid()
      modifies this
      ensures Valid()
      ensures amount <= 0 ==> r == Failure(NonPositiveAmount) && docs == old(docs)
      ensures amount > 0 ==> r == Success(Transfer(old(docs), senderId, receiverId, amount).Success?)
      ensures Transfer(old(docs), senderId, receiverId, amount).Success? ==>
        docs == Transfer(old(docs), senderId, receiverId, amount).value
      ensures Transfer(old(docs), senderId, receiverId, amount).Failure? ==> docs == old(docs)
    {
      if amount <= 0 {
        return Failure(NonPositiveAmount);
      }
      ghost var expected := Transfer(docs, senderId, receiverId, amount);
      assert expected == TransferTxn(docs, senderId, receiverId, amount);
      var senderCoins := if senderId in docs then CoinsOf(docs[senderId]) else 0;
      var receiverCoins := if receiverId in docs then CoinsOf(docs[receiverId]) else 0;
      if senderCoins < amount {
        assert expected.Failure?;
        return Success(false);
      }
      docs := WriteCoins(docs, senderId, senderCoins - amount);
      docs := WriteCoins(docs, receiverId, receiverCoins + amount);
      assert docs == expected.value;
      r := Success(true);
    }

    /** `getAllUserBalances`: every user whose coins field is a number, once each, with that number. */
    method GetAllUserBalances() returns (users: seq<UserBalance>)
      ensures forall u :: u in users ==> u.userId in docs && docs[u.userId].coins == Num(u.coins)
      ensures forall id :: id in docs && docs[id].coins.Num? ==> UserBalance(id, docs[id].coins.n) in users
      ensures forall i, j :: 0 <= i < j < |users| ==> users[i].userId != users[j].userId
    {
      users := [];
      var pending := docs.Keys;
      while pending != {}
        invariant pending <= docs.Keys
        invariant forall u :: u in users ==> u.userId in docs && u.userId !in pending && docs[u.userId].coins == Num(u.coins)
        invariant forall id :: id in docs && id !in pending && docs[id].coins.Num? ==> UserBalance(id, docs[id].coins.n) in users
        invariant forall i, j :: 0 <= i < j < |users| ==> users[i].userId != users[j].userId
        decreases pending
      {
        var id :| id in pending;
        var data := docs[id];
        if data.coins.Num? {
          users := users + [UserBalance(id, data.coins.n)];
        }
        pending := pending - {id};
      }
    }

    /** `getUserData` (defined outside coinManager.js): reads, never writes. */
    method GetUserData(userId: UserId) returns (account: Account)
      ensures account == AccountOf(docs, userId)
      ensures account.coins == Balance(docs, userId)
    {
      var banked := userId in docs && docs[userId].isBanked;
      var coins := if userId in docs then CoinsOf(docs[userId]) else 0;
      account := Account(coins, banked);
    }

    /** `setBankedStatus` (defined outside coinManager.js). */
    method SetBankedStatus(userId: UserId, banked: bool)
      requires Valid()
      modifies this
      ensures Valid()
      ensures docs == WriteBanked(old(docs), userId, banked)
    {
      docs := WriteBanked(docs, userId, banked);
    }

    /** `buyPet` (defined outside coinManager.js): one atomic debit-and-append. */
    method BuyPet(userId: UserId, pet: string, price: int) returns (r: Result<Purchase, LedgerError>)
      requires Valid()
      modifies this
      ensures Valid()
      ensures PurchaseTxn(old(docs), userId, pet, price).Success? ==>
        docs == PurchaseTxn(old(docs), userId, pet, price).value
        && r == Success(Purchase(Balance(docs, userId), docs[userId].pets))
      ensures PurchaseTxn(old(docs), userId, pet, price).Failure? ==>
        docs == old(docs) && r == Failure(PurchaseTxn(old(docs), userId, pet, price).error)
    {
      var txn := PurchaseTxn(docs, userId, pet, price);
      if txn.Failure? {
        return Failure(txn.error);
      }
      docs := txn.value;
      r := Success(Purchase(Balance(docs, userId), docs[userId].pets));
    }

    /** `depositCoins` (defined outside coinManager.js): one atomic move from the main balance to the bank. */
    method DepositCoins(userId: UserId, amount: int) returns (r: Result<Deposit, LedgerError>)
      requires Valid()
      modifies this
      ensures Valid()
      ensures DepositTxn(old(docs), userId, amount).Success? ==>
        docs == DepositTxn(old(docs), userId, amount).value
        && r == Success(Deposit(Balance(docs, userId), docs[userId].bankedCoins))
      ensures DepositTxn(old(docs), userId, amount).Failure? ==>
        docs == old(docs) && r == Failure(DepositTxn(old(docs), userId, amount).error)
    {
      var txn := DepositTxn(docs, userId, amount);
      if txn.Failure? {
        return Failure(txn.error);
      }
      docs := txn.value;
      r := Success(Deposit(Balance(docs, userId), docs[userId].bankedCoins));
    }
  }
}
