/** `$leaderboard` and `/leaderboard`: the ten users with the most coins. */
module Leaderboard {
  import opened Base
  import opened Text
  import opened Ledger
  import GameConfig

  /** No entry has fewer coins than an entry after it. */
  predicate SortedByCoinsDesc(users: seq<UserBalance>) {
    forall i, j :: 0 <= i < j < |users| ==> users[i].coins >= users[j].coins
  }

  /** No two entries share a user id. */
  predicate DistinctIds(users: seq<UserBalance>) {
    forall i, j :: 0 <= i < j < |users| ==> users[i].userId != users[j].userId
  }

  /** `x` placed before the first entry with no more coins than it, so that among equal balances earlier entries stay first. */
  function Insert(x: UserBalance, sorted: seq<UserBalance>): (r: seq<UserBalance>)
    requires SortedByCoinsDesc(sorted)
    ensures SortedByCoinsDesc(r)
    ensures multiset(r) == multiset(sorted) + multiset{x}
    ensures r[0] == x || (sorted != [] && r[0] == sorted[0])
  {
    if sorted == [] || sorted[0].coins <= x.coins then
      ConsSorted(x, sorted);
      [x] + sorted
    else
      var rest := Insert(x, sorted[1..]);
      InsertBehind(sorted[0], sorted[1..], x, rest);
      assert sorted == [sorted[0]] + sorted[1..];
      [sorted[0]] + rest
  }

  /** Putting a larger entry in front of a tail into which `x` was inserted. */
  lemma InsertBehind(head: UserBalance, tail: seq<UserBalance>, x: UserBalance, rest: seq<UserBalance>)
    requires SortedByCoinsDesc([head] + tail) && head.coins > x.coins
    requires SortedByCoinsDesc(rest) && multiset(rest) == multiset(tail) + multiset{x}
    requires rest[0] == x || (tail != [] && rest[0] == tail[0])
    ensures SortedByCoinsDesc([head] + rest)
    ensures multiset([head] + rest) == multiset([head] + tail) + multiset{x}
  {
    if tail != [] {
      var whole := [head] + tail;
      assert whole[0] == head && whole[1] == tail[0];
      assert whole[0].coins >= whole[1].coins;
    }
    ConsSorted(head, rest);
  }

  lemma ConsSorted(head: UserBalance, tail: seq<UserBalance>)
    requires SortedByCoinsDesc(tail)
    requires tail == [] || tail[0].coins <= head.coins
    ensures SortedByCoinsDesc([head] + tail)
  {
  }

  /** `allUsers.sort((a, b) => b.coins - a.coins)`: a stable sort, highest balance first. */
  function SortByCoins(users: seq<UserBalance>): (r: seq<UserBalance>)
    ensures SortedByCoinsDesc(r)
    ensures multiset(r) == multiset(users)
  {
    if users == [] then []
    else
      assert users == [users[0]] + users[1..];
      Insert(users[0], SortByCoins(users[1..]))
  }

  /** Sorting keeps exactly the entries it was given. */
  lemma SortKeepsEntries(users: seq<UserBalance>)
    ensures |SortByCoins(users)| == |users|
    ensures forall y :: y in SortByCoins(users) <==> y in users
  {
    var r := SortByCoins(users);
    assert |r| == |multiset(r)| == |multiset(users)| == |users|;
    forall y ensures y in r <==> y in users {
      assert y in r <==> y in multiset(r);
      assert y in users <==> y in multiset(users);
    }
  }

  /** Inserting an entry whose id is new keeps the ids distinct. */
  lemma {:induction false} InsertKeepsDistinct(x: UserBalance, sorted: seq<UserBalance>)
    requires SortedByCoinsDesc(sorted) && DistinctIds(sorted)
    requires forall y :: y in sorted ==> y.userId != x.userId
    ensures DistinctIds(Insert(x, sorted))
    ensures forall y :: y in Insert(x, sorted) ==> y == x || y in sorted
  {
    var r := Insert(x, sorted);
    if sorted == [] || sorted[0].coins <= x.coins {
      assert r == [x] + sorted;
    } else {
      var rest := Insert(x, sorted[1..]);
      assert r == [sorted[0]] + rest;
      InsertKeepsDistinct(x, sorted[1..]);
      assert forall y :: y in sorted[1..] ==> y.userId != sorted[0].userId;
    }
  }

  /** Sorting entries with distinct ids keeps the ids distinct. */
  lemma {:induction false} SortKeepsDistinct(users: seq<UserBalance>)
    requires DistinctIds(users)
    ensures DistinctIds(SortByCoins(users))
  {
    if users != [] {
      var tail := SortByCoins(users[1..]);
      SortKeepsDistinct(users[1..]);
      SortKeepsEntries(users[1..]);
      InsertKeepsDistinct(users[0], tail);
    }
  }

  /** `slice(0, 10)`. */
  function Top(sorted: seq<UserBalance>): (r: seq<UserBalance>)
    ensures |r| == Min(GameConfig.LeaderboardSize, |sorted|)
    ensures r == sorted[..|r|]
  {
    sorted[..Min(GameConfig.LeaderboardSize, |sorted|)]
  }

  /** Everyone shown outranks, or ties with, everyone left out. */
  lemma ShownOutrankHidden(users: seq<UserBalance>, shown: UserBalance, hidden: UserBalance)
    requires shown in Top(SortByCoins(users))
    requires hidden in users && hidden !in Top(SortByCoins(users))
    ensures shown.coins >= hidden.coins
  {
    var sorted := SortByCoins(users);
    var top := Top(sorted);
    SortKeepsEntries(users);
    var j :| 0 <= j < |sorted| && sorted[j] == hidden;
    var i :| 0 <= i < |top| && top[i] == shown;
    assert forall k :: 0 <= k < |top| ==> top[k] == sorted[k];
    assert j >= |top|;
  }

  /** One embed field: the rank label and the balance. */
  datatype Field = Field(name: string, value: string)

  /** `#${i + 1} ${username}`, with `Unknown User (${userId})` when Discord does not know the id. */
  function RankField(i: nat, user: UserBalance, usernames: map<UserId, string>): (f: Field)
    ensures StartsWith(f.name, "#" + NatToString(i + 1) + " ")
    ensures f.value == "**" + IntToString(user.coins) + "** coins"
  {
    var username := if user.userId in usernames then usernames[user.userId] else "Unknown User (" + user.userId + ")";
    var prefix := "#" + NatToString(i + 1) + " ";
    assert (prefix + username)[..|prefix|] == prefix;
    Field(prefix + username, "**" + IntToString(user.coins) + "** coins")
  }

  /** The loop that adds one field per shown user, ranks counted from 1. */
  method RankFields(top: seq<UserBalance>, usernames: map<UserId, string>) returns (fields: seq<Field>)
    ensures |fields| == |top|
    ensures forall i :: 0 <= i < |top| ==> fields[i] == RankField(i, top[i], usernames)
  {
    fields := [];
    for i := 0 to |top|
      invariant |fields| == i
      invariant forall k :: 0 <= k < i ==> fields[k] == RankField(k, top[k], usernames)
    {
      var field := RankField(i, top[i], usernames);
      assert forall k :: 0 <= k < i ==> (fields + [field])[k] == fields[k];
      fields := fields + [field];
    }
  }

  datatype Reply = Empty | Board(top: seq<UserBalance>, fields: seq<Field>)

  /** `users` is what `getAllUserBalances` returns for `docs`: each numeric balance once, with its id. */
  predicate ListsAllBalances(docs: Store, users: seq<UserBalance>) {
    (forall u :: u in users ==> u.userId in docs && docs[u.userId].coins == Num(u.coins))
    && (forall id :: id in docs && docs[id].coins.Num? ==> UserBalance(id, docs[id].coins.n) in users)
    && DistinctIds(users)
  }

  /** `top` is a leaderboard of `docs`: at most ten real balances, best first, none better left out. */
  predicate IsLeaderboard(docs: Store, top: seq<UserBalance>) {
    |top| <= GameConfig.LeaderboardSize
    && SortedByCoinsDesc(top)
    && DistinctIds(top)
    && (forall u :: u in top ==> u.userId in docs && docs[u.userId].coins == Num(u.coins))
    && (forall id, u :: id in docs && docs[id].coins.Num? && u in top && UserBalance(id, docs[id].coins.n) !in top
          ==> u.coins >= docs[id].coins.n)
    && (|top| < GameConfig.LeaderboardSize ==>
          forall id :: id in docs && docs[id].coins.Num? ==> UserBalance(id, docs[id].coins.n) in top)
  }

  /** The ten kept are sorted, distinct and taken from the input; fewer than ten means all of them. */
  lemma TopOfSorted(users: seq<UserBalance>)
    requires DistinctIds(users)
    ensures var top := Top(SortByCoins(users));
      SortedByCoinsDesc(top) && DistinctIds(top)
      && (forall u :: u in top ==> u in users)
      && (|top| < GameConfig.LeaderboardSize ==> forall u :: u in users ==> u in top)
      && (top == [] <==> users == [])
  {
    var sorted := SortByCoins(users);
    var top := Top(sorted);
    SortKeepsEntries(users);
    SortKeepsDistinct(users);
    assert forall k :: 0 <= k < |top| ==> top[k] == sorted[k];
    if |top| < GameConfig.LeaderboardSize {
      assert top == sorted;
    }
  }

  /** Sorting every balance and keeping ten gives a leaderboard, empty exactly when no balance is a number. */
  lemma TopIsLeaderboard(docs: Store, users: seq<UserBalance>)
    requires ListsAllBalances(docs, users)
    ensures IsLeaderboard(docs, Top(SortByCoins(users)))
    ensures Top(SortByCoins(users)) == [] <==> forall id :: id in docs ==> !docs[id].coins.Num?
  {
    var top := Top(SortByCoins(users));
    TopOfSorted(users);
    NoneBetterLeftOut(docs, users);
    if top != [] {
      assert top[0] in users;
    }
  }

  lemma NoneBetterLeftOut(docs: Store, users: seq<UserBalance>)
    requires ListsAllBalances(docs, users)
    ensures var top := Top(SortByCoins(users));
      forall id, u :: id in docs && docs[id].coins.Num? && u in top && UserBalance(id, docs[id].coins.n) !in top
        ==> u.coins >= docs[id].coins.n
  {
    var top := Top(SortByCoins(users));
    forall id, u | id in docs && docs[id].coins.Num? && u in top && UserBalance(id, docs[id].coins.n) !in top
      ensures u.coins >= docs[id].coins.n
    {
      ShownOutrankHidden(users, u, UserBalance(id, docs[id].coins.n));
    }
  }

  /**
   * `executeCommand`: read every balance, sort, keep ten, label them.
   * `usernames` holds the users `client.users.fetch` finds. Nothing is written.
   */
  method ExecuteCommand(coinManager: CoinManager, usernames: map<UserId, string>) returns (reply: Reply)
    ensures reply.Empty? <==> forall id :: id in coinManager.docs ==> !coinManager.docs[id].coins.Num?
    ensures reply.Board? ==>
      reply.top != [] && IsLeaderboard(coinManager.docs, reply.top)
      && |reply.fields| == |reply.top|
      && forall i :: 0 <= i < |reply.top| ==> reply.fields[i] == RankField(i, reply.top[i], usernames)
  {
    var allUsers := coinManager.GetAllUserBalances();
    var sorted := SortByCoins(allUsers);
    var top := Top(sorted);
    TopIsLeaderboard(coinManager.docs, allUsers);
    if |top| == 0 {
      return Empty;
    }
    var fields := RankFields(top, usernames);
    reply := Board(top, fields);
  }
}
