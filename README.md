# lun-coin-bot: the coin economy, modelled in Dafny

lun-coin-bot is a Discord bot with a virtual currency. Every user has a coin
balance kept in a Firestore `users` collection. The `CoinManager` service reads
and updates it. The commands move coins:

- `/daily` and `/beg` pay out, each on a cooldown;
- `/flip`, `/roll` and `/raid` are games of chance;
- `give` is a transfer between two users;
- `/add_coins` and `/deduct_coins` are adjustments only the bot owner may make;
- `/bank_deposit` and `/bank_withdraw` switch "safe mode" on and off (a banked user cannot raid or be raided);
- `/leaderboard` shows the ten richest users;
- `/shop` lists pets and sells them.

A command handler routes text (prefix) commands and slash (`/name`) commands to these modules. index.js reads prefix commands as `!name`, while the commands' usage texts write `$name`.

This project models that economy in Dafny. What it models:

- The `users` collection is a `map` from user id to a document: coins, safe-mode flag, bank balance, pets.
- Each Firestore transaction is one pure function on that map: `UpdateTxn`, `TransferTxn`, `PurchaseTxn`, `DepositTxn`.
- `CoinManager` is a class whose methods apply those functions.
- Each command with a module-level cooldown `Map` (`/daily`, `/beg`, `/raid`, `/bank_deposit`) is a class holding the coin manager and that map.
- A command's decision logic is a pure function returning the reply and the new state. The command's method is proved to produce exactly that.
- The clock (`Date.now()`), the draws of `Math.random()`, `BOT_OWNER_ID` and the users Discord can fetch are parameters.

Module layout, one file each:

| file | module | models |
|---|---|---|
| `base.dfy` | `Base` | `Option` and `Result` |
| `text.dfy` | `Text` | the JavaScript string built-ins the commands rely on: `parseInt`, `String(n)`, `replace(/[^0-9]/g, '')`, `trim`, `toLowerCase`, `startsWith`, capitalisation; white space is what ECMAScript's `trim` skips, including every Unicode space separator |
| `config.dfy` | `GameConfig` | the settings of `src/config/gameConfig.js` |
| `ledger.dfy` | `Ledger` | `src/services/coinManager.js` |
| `cooldown.dfy` | `Cooldown` | the shared cooldown gate and the "h hour(s) m minute(s) s second(s)" text |
| each command file | its own module | that command |

Properties proved include:

- No ledger call, and no sequence of ledger calls, ever leaves a negative balance.
- A failed call changes nothing.
- A transfer between two distinct users conserves their total (exactly so in JavaScript while balances stay below 2^53; see "Left out").
- Each game moves exactly the stake, or the prize, it announces.
- Every cooldown refuses exactly the calls inside its window, and is recorded only after the guarded ledger call succeeds.
- The leaderboard is sorted, and nobody left out has more coins than anyone shown.
- Shop autocomplete offers exactly the pets whose names start with the typed text, in catalogue order.
- Registering commands fills the two maps and the data array exactly as the handler's code does.

## Model

| member | source | states |
|---|---|---|
| `Base.Min` | src/commands/raid.js:74 | `Math.min`: a lower bound of both arguments that equals one of them |
| `Base.Get` | src/commands/daily.js:23 | `map.get`: a value iff the key is present, and then the stored one |
| `Ledger.WriteCoins` | src/services/coinManager.js:137 | a merge write: the user now exists with exactly the new balance, its other fields are kept, and every other document is unchanged |
| `Ledger.Balance` | src/services/coinManager.js:94-95 | the balance a transaction reads (the `or 0` fallback): the stored number when the document exists and holds one, otherwise 0 |
| `Ledger.OpenAccount` | src/services/coinManager.js:19-32 | an unknown user is created as a fresh document holding 10000 coins; a known user is left as it was; no other document changes; non-negativity is kept |
| `Ledger.OpeningBalance` | src/services/coinManager.js:24-31 | `getBalance` returns the balance of the opened account: 10000 for an unknown user, never negative on a non-negative collection |
| `Ledger.GetBalanceIdempotent` | src/services/coinManager.js:24-31 | a second `getBalance` neither re-creates the user nor returns anything different |
| `Ledger.UpdateTxn` | src/services/coinManager.js:126-139 | the `updateCoins` transaction succeeds iff the current balance (a missing document counts as 0) plus the delta is at least 0, so reaching exactly 0 is allowed; it then stores that sum for this user only; its failure is "insufficient funds" |
| `Ledger.TransferTxn` | src/services/coinManager.js:85-107 | succeeds iff the sender holds at least the amount. For distinct users the sender loses and the receiver gains exactly the amount. For one user the second write wins, so the balance grows by the amount. Nobody else changes |
| `Ledger.Credit` | src/services/coinManager.js:47-52 | `addCoins`: a non-positive amount fails; on a non-negative collection it succeeds for every positive amount, raising the balance by exactly that much |
| `Ledger.Debit` | src/services/coinManager.js:62-67 | `removeCoins`: a non-positive amount fails; a balance below the amount fails with "insufficient funds"; otherwise the balance drops by exactly the amount, possibly to 0 |
| `Ledger.Transfer` | src/services/coinManager.js:78-111 | `transferCoins`: a non-positive amount fails; otherwise it succeeds iff the sender covers the amount; two distinct users' total is conserved; only the two users change |
| `Ledger.SelfTransferMints` | src/services/coinManager.js:94-105 | a transfer to oneself succeeds and raises the balance by the amount, since the receiver's write replaces the sender's |
| `Ledger.AccountOf` | src/commands/raid.js:51-59 | what `getUserData` reports: the balance as transactions read it, and a safe-mode flag that can only be set for a stored user |
| `Ledger.WriteBanked` | src/commands/bank_withdraw.js:15 | `setBankedStatus` changes the safe-mode flag alone: the balance and every other document stay the same |
| `Ledger.PurchaseTxn` | src/commands/shop.js:85 | `buyPet` as one debit: it succeeds iff the price is positive and covered; the balance drops by the price and the pet is appended to the pets owned; a failure names its cause |
| `Ledger.DepositTxn` | src/commands/bank_deposit.js:50 | `depositCoins` succeeds iff the amount is positive and covered; the main balance drops by the amount, the bank balance grows by it and safe mode is on |
| `Ledger.ApplyKeepsNonNegative` | src/services/coinManager.js:47-144 | any single ledger call, successful or not, keeps every balance non-negative |
| `Ledger.RunKeepsNonNegative` | src/services/coinManager.js:47-144 | any sequence of ledger calls keeps every balance non-negative |
| `Ledger.CoinManager.constructor` | src/services/coinManager.js:4-9 | a manager over an empty collection |
| `Ledger.CoinManager.GetBalance` | src/services/coinManager.js:19-37 | the collection becomes `OpenAccount` of the old one and the result is `OpeningBalance`, never negative |
| `Ledger.CoinManager.UpdateCoins` | src/services/coinManager.js:123-144 | when `UpdateTxn` succeeds its collection is stored and the new balance returned; otherwise "insufficient funds" and nothing changes |
| `Ledger.CoinManager.AddCoins` | src/services/coinManager.js:47-52 | the collection and the result follow `Credit`; a failure changes nothing |
| `Ledger.CoinManager.RemoveCoins` | src/services/coinManager.js:62-67 | the collection and the result follow `Debit`; a failure changes nothing |
| `Ledger.CoinManager.TransferCoins` | src/services/coinManager.js:78-112 | a non-positive amount throws and changes nothing; otherwise the answer is whether `Transfer` succeeds, whose collection is then stored; on `false` nothing changes |
| `Ledger.CoinManager.GetAllUserBalances` | src/services/coinManager.js:150-160 | every user whose coins field is a number appears exactly once, with that number, and nobody else appears |
| `Ledger.CoinManager.GetUserData` | src/commands/bank_deposit.js:45 | reports `AccountOf` and writes nothing |
| `Ledger.CoinManager.SetBankedStatus` | src/commands/bank_withdraw.js:15 | the collection becomes `WriteBanked` of the old one |
| `Ledger.CoinManager.BuyPet` | src/commands/shop.js:85 | a success stores `PurchaseTxn`'s collection and reports the new balance and the pets owned; a failure reports its error and changes nothing |
| `Ledger.CoinManager.DepositCoins` | src/commands/bank_deposit.js:50 | a success stores `DepositTxn`'s collection and reports both balances; a failure reports its error and changes nothing |
| `Cooldown.RemainingMs` | src/commands/daily.js:26 | while on cooldown the time left is positive, runs out exactly when the cooldown does, and is at most the cooldown if the clock has not gone back |
| `Cooldown.OnCooldown` | src/commands/daily.js:25 | the shared gate `lastUsed && now - lastUsed < cooldown` (also beg.js:26, raid.js:28): a missing or zero timestamp never blocks; otherwise it blocks iff the cooldown has not yet run out |
| `Cooldown.SplitHms` | src/commands/daily.js:27-29 | hours are non-negative, minutes and seconds below 60, and the parts add up to the time left rounded down to a whole second |
| `Cooldown.MinutesOfRemainder` | src/commands/daily.js:28-29 | the minute-and-millisecond part of the hour remainder is the whole hour remainder |
| `Cooldown.SplitMs` | src/commands/beg.js:28-29 | the /beg split: no hours, seconds below 60, the parts add up to the time left rounded down to a whole second, and within the beg cooldown at most 5 minutes |
| `Cooldown.SplitsAgreeBelowAnHour` | src/commands/beg.js:28-29 | below an hour the two splits agree |
| `Cooldown.Part` | src/commands/daily.js:32-34 | one piece of the time text: empty iff its count is not positive, otherwise starting with a digit |
| `Cooldown.DurationText` | src/commands/daily.js:31-35 | the trimmed time text is empty iff hours, minutes and seconds are all zero, and otherwise starts with a digit |
| `Cooldown.DurationTextEmptyBelowOneSecond` | src/commands/daily.js:27-35 | both splits print nothing exactly when less than a second is left |
| `Cooldown.BegOneMinuteLater` | src/commands/beg.js:26-34 | one minute after a beg the gate refuses, four minutes are left, and the text reads "4 minute(s)" |
| `Cooldown.ZeroTimestampNeverBlocks` | src/commands/daily.js:25 | a recorded timestamp of 0 is falsy and never blocks |
| `Cooldown.BlockedUntilCooldownPasses` | src/commands/daily.js:25 | with a non-zero timestamp the gate refuses iff the cooldown has not yet run out |
| `Daily.Claim` | src/commands/daily.js:21-49 | it waits iff on cooldown, changing nothing and printing nothing only when under a second is left; otherwise 5000 coins are credited and the claim time is recorded; a failure changes nothing and cannot happen on a non-negative collection |
| `Daily.FirstCommandDaily` | src/commands/daily.js:42 | a user never seen before is stored with 5000 coins, not 15000, and `getBalance` then reports 5000 |
| `Daily.OneClaimPerDay` | src/commands/daily.js:25-43 | after a claim at a non-zero time every claim within 24 hours waits and changes nothing |
| `Daily.ClaimAgainAfterADay` | src/commands/daily.js:25-43 | the claim exactly 24 hours later is accepted and credits another 5000 |
| `Daily.DailyCommand.constructor` | src/commands/daily.js:4 | a command with an empty `dailyCooldowns` map |
| `Daily.DailyCommand.ExecuteCommand` | src/commands/daily.js:21-49 | the reply, the collection and the cooldown map are exactly those of `Claim` |
| `Beg.Reward` | src/commands/beg.js:40 | for a draw in [0, 1) the reward lies between 1 and 1000 |
| `Beg.EveryRewardReachable` | src/commands/beg.js:40 | every reward from 1 to 1000 comes from some draw |
| `Beg.Attempt` | src/commands/beg.js:22-49 | it waits iff on the 5-minute cooldown, changing nothing; otherwise the balance grows by exactly the reward and the time is recorded; a failure changes nothing and cannot happen on a non-negative collection |
| `Beg.WaitAtMostFiveMinutes` | src/commands/beg.js:27-29 | while the clock does not go back the wait never shows more than 5 minutes |
| `Beg.BegCommand.constructor` | src/commands/beg.js:4 | a command with an empty `begCooldowns` map |
| `Beg.BegCommand.ExecuteCommand` | src/commands/beg.js:22-49 | the reply, the collection and the cooldown map are exactly those of `Attempt` |
| `Flip.Bet` | src/commands/flip.js:32-46 | refused iff the opening balance is below the stake, storing only the account opening; otherwise a win adds exactly the stake and a loss removes it; a non-positive stake is the ledger's error |
| `Flip.Wins` | src/commands/flip.js:37 | the draw wins iff it is below `FLIP_WIN_CHANCE`, 0.5 |
| `Flip.FlipIsFair` | src/commands/flip.js:41-46 | on an accepted stake a win and a loss move the balance by opposite amounts |
| `Flip.Play` | src/commands/flip.js:30-53 | the reply and the collection are exactly those of `Bet` with the draw `Math.random() < 0.5` |
| `Flip.PrefixExecute` | src/commands/flip.js:22-54 | a missing, NaN or non-positive `parseInt(args[0])` gives the usage reply and changes nothing; otherwise `Bet` |
| `Roll.DiceRoll` | src/commands/roll.js:37 | for a draw in [0, 1) the die shows 1 to 6 |
| `Roll.Bet` | src/commands/roll.js:32-47 | refused iff the opening balance is below the stake; otherwise a six adds exactly five times the stake and any other face removes the stake |
| `Roll.RollIsFair` | src/commands/roll.js:37-47 | over the six faces the balance changes sum to zero |
| `Roll.Gain` | src/commands/roll.js:41-47 | on an accepted stake the balance changes by five times the stake on a six and by minus the stake on any other face |
| `Roll.Play` | src/commands/roll.js:30-54 | the reply and the collection are exactly those of `Bet` with `DiceRoll` of the draw |
| `Roll.PrefixExecute` | src/commands/roll.js:22-55 | a missing, NaN or non-positive `parseInt(args[0])` gives the usage reply and changes nothing; otherwise `Bet` |
| `Raid.RaidAmount` | src/commands/raid.js:74 | a quarter of a non-negative balance, rounded down; at least 25 and at most the balance once the balance reaches 100 |
| `Raid.Succeeds` | src/commands/raid.js:68 | the raid succeeds iff the draw is below `RAID_SUCCESS_CHANCE`, 0.5 |
| `Raid.Moved` | src/commands/raid.js:78 | the collection after a `transferCoins` whose answer the raid ignores: only a non-positive amount fails |
| `Raid.Raid` | src/commands/raid.js:23-107 | the checks in source order (cooldown, self-raid, the raider's safe mode, the target's, the 100-coin floor) each refuse without changing anything; coins move iff all pass; the zero-amount and failure branches never happen; the two users' total is conserved |
| `Raid.Attempt` | src/commands/raid.js:68-89 | a success takes a quarter of the target's coins (at least 25), a failure pays a quarter of the raider's to the target, and both start the raider's cooldown |
| `Raid.OneRaidPerHour` | src/commands/raid.js:26-41 | after a raid that moved coins at a non-zero time, any raid by the same user within the hour waits and changes nothing |
| `Raid.RaidCommand.constructor` | src/commands/raid.js:5 | a command with an empty `raidCooldowns` map |
| `Raid.RaidCommand.ExecuteCommand` | src/commands/raid.js:23-107 | the reply, the collection and the cooldown map are exactly those of `Raid` |
| `BankDeposit.ImportedCooldown` | src/commands/bank_deposit.js:3 | the imported `BANK_COOLDOWN_MS` is `undefined`, since gameConfig.js exports no such name |
| `BankDeposit.GateAsWrittenNeverBlocks` | src/commands/bank_deposit.js:29 | as written, comparing with `undefined` is false, so the deposit gate never refuses |
| `BankDeposit.CorrectedGateBlocks` | src/config/gameConfig.js:29 | with `BANK_TOGGLE_COOLDOWN_MS` the gate refuses a second deposit one millisecond after the first |
| `BankDeposit.MakeDeposit` | src/commands/bank_deposit.js:24-66 | it waits iff the gate `lastUsed && now - lastUsed < limit` holds for the cooldown `limit` the command reads, which for a defined limit is exactly the cooldown window; then refuses iff the balance is below the amount; otherwise the amount moves to the bank, safe mode turns on and the time is recorded; a non-positive amount is the ledger's error; any refusal changes nothing |
| `BankDeposit.AsWrittenDepositsRepeat` | src/commands/bank_deposit.js:3-51 | with the imported, undefined cooldown a deposit is accepted again one millisecond after the last whenever the balance covers it |
| `BankDeposit.CorrectedOneDepositPerDay` | src/config/gameConfig.js:29 | with `BANK_TOGGLE_COOLDOWN_MS`, after a deposit at a non-zero time every deposit within 24 hours waits and changes nothing |
| `BankDeposit.DepositConservesTotal` | src/commands/bank_deposit.js:50 | a deposit keeps main plus bank balance constant |
| `BankDeposit.DepositProtectsFromRaids` | src/commands/raid.js:54-59 | after a deposit no raid, with the depositor as raider or target, moves any coins |
| `BankDeposit.BankDepositCommand.constructor` | src/commands/bank_deposit.js:5 | a command with an empty `depositCooldowns` map and the cooldown its gate reads |
| `BankDeposit.BankDepositCommand.ExecuteCommand` | src/commands/bank_deposit.js:24-66 | the reply, the collection and the cooldown map are exactly those of `MakeDeposit` with the command's cooldown; as shipped that is `ImportedCooldown()`, so it never waits |
| `BankDeposit.BankDepositCommand.PrefixExecute` | src/commands/bank_deposit.js:68-74 | a NaN or non-positive `parseInt(args[0])` gives the usage reply and changes nothing; otherwise `MakeDeposit` with the command's cooldown |
| `BankWithdraw.Withdraw` | src/commands/bank_withdraw.js:5-29 | a user not in safe mode is told so and nothing changes; otherwise only the flag is cleared; afterwards the user is never banked and the balance is unchanged |
| `BankWithdraw.WithdrawIdempotent` | src/commands/bank_withdraw.js:7-15 | a second withdraw is told "not banked" and changes nothing |
| `BankWithdraw.ExecuteCommand` | src/commands/bank_withdraw.js:5-29 | the reply and the collection are exactly those of `Withdraw` |
| `Give.Validate` | src/commands/give.js:21-43 | accepted iff there are two arguments, the mention holds digits, they are not the sender's id and the amount parses positive; each check, taken in that order, fails with its own reply (usage, invalid mention, self-give, invalid amount); an accepted request carries the mention's digits and the parsed amount |
| `Give.MentionAndAmountAccepted` | src/commands/give.js:29-43 | `<@id>` or `<@!id>` with a decimal amount is accepted as that id and amount |
| `Give.Give` | src/commands/give.js:17-68 | invalid input or an unknown receiver changes nothing; otherwise the coins move iff the sender's balance covers the amount, the new collection being exactly `transferCoins`' result, in which only the two users change, the sender losing and the receiver gaining exactly the amount; otherwise the gift is refused for want of coins and nothing changes |
| `Give.UnknownSenderCannotGive` | src/commands/give.js:52 | a sender the ledger has never seen holds 0 coins and cannot give |
| `Give.Execute` | src/commands/give.js:17-68 | the reply and the collection are exactly those of `Give`, so coins move iff the request is valid, the receiver exists and the sender covers the amount |
| `AddCoins.Adjust` | src/commands/add_coins.js:26-55 | forbidden iff the executor is not `BOT_OWNER_ID`; for the owner the target gains exactly the amount, or the ledger's error is reported and nothing changes |
| `AddCoins.UnsetOwnerForbidsEveryone` | src/commands/add_coins.js:28-35 | with `BOT_OWNER_ID` unset nobody may add coins |
| `AddCoins.ExecuteCommand` | src/commands/add_coins.js:26-55 | the reply and the collection are exactly those of `Adjust` |
| `AddCoins.PrefixExecute` | src/commands/add_coins.js:57-66 | no mention, or a NaN or non-positive `parseInt(args[1])`, gives the usage reply and changes nothing; otherwise `Adjust` |
| `DeductCoins.Adjust` | src/commands/deduct_coins.js:26-55 | forbidden iff the executor is not `BOT_OWNER_ID`; for the owner the target loses exactly the amount if covered, or the ledger's error is reported and nothing changes |
| `DeductCoins.UnsetOwnerForbidsEveryone` | src/commands/deduct_coins.js:28-35 | with `BOT_OWNER_ID` unset nobody may deduct coins |
| `DeductCoins.ExecuteCommand` | src/commands/deduct_coins.js:26-55 | the reply and the collection are exactly those of `Adjust` |
| `DeductCoins.PrefixExecute` | src/commands/deduct_coins.js:57-66 | no mention, or a NaN or non-positive `parseInt(args[1])`, gives the usage reply and changes nothing; otherwise `Adjust` |
| `Leaderboard.Insert` | src/commands/leaderboard.js:23 | inserting into a list sorted by coins, highest first, keeps it sorted and adds exactly that entry |
| `Leaderboard.InsertBehind` | src/commands/leaderboard.js:23 | a richer entry put in front of a list that received an insertion keeps it sorted and adds exactly the inserted entry |
| `Leaderboard.ConsSorted` | src/commands/leaderboard.js:23 | an entry no poorer than the head of a sorted list may go in front of it |
| `Leaderboard.SortByCoins` | src/commands/leaderboard.js:23 | sorted by coins, highest first, and a permutation of the input |
| `Leaderboard.SortKeepsEntries` | src/commands/leaderboard.js:23 | sorting keeps the length and exactly the same entries |
| `Leaderboard.InsertKeepsDistinct` | src/commands/leaderboard.js:23 | inserting an entry with a new id keeps the ids distinct and adds nothing else |
| `Leaderboard.SortKeepsDistinct` | src/commands/leaderboard.js:23 | sorting entries with distinct ids keeps them distinct |
| `Leaderboard.Top` | src/commands/leaderboard.js:26 | `slice(0, 10)`: the first ten entries, or all of them when there are fewer |
| `Leaderboard.ShownOutrankHidden` | src/commands/leaderboard.js:23-26 | everyone shown has at least as many coins as anyone left out |
| `Leaderboard.RankField` | src/commands/leaderboard.js:47-53 | the field name starts with `#` and the rank counted from 1, and the value shows the balance |
| `Leaderboard.RankFields` | src/commands/leaderboard.js:43-54 | one field per shown user, in order, ranked from 1 |
| `Leaderboard.TopOfSorted` | src/commands/leaderboard.js:23-26 | the ten kept are sorted, distinct and taken from the input; fewer than ten means all of them; none only when the input is empty |
| `Leaderboard.TopIsLeaderboard` | src/commands/leaderboard.js:20-28 | from what `getAllUserBalances` returns, at most ten real balances, sorted and distinct, with nobody richer left out; empty iff no stored balance is a number |
| `Leaderboard.NoneBetterLeftOut` | src/commands/leaderboard.js:23-26 | no user with a numeric balance left out has more coins than a user shown |
| `Leaderboard.ExecuteCommand` | src/commands/leaderboard.js:18-60 | the "empty" reply iff no stored balance is a number; otherwise a leaderboard of the collection with one rank field per entry |
| `Shop.FindPet` | src/commands/shop.js:71 | an entry found has the name looked up |
| `Shop.FindPetFindsEntries` | src/commands/shop.js:71 | the entry found is in the catalogue, and nothing is found iff no pet has that name |
| `Shop.LookupAsWritten` | src/commands/shop.js:71 | `PET_PRICES[key]` as written: a catalogue entry, an inherited `Object.prototype` member such as `constructor`, or `undefined` exactly when neither |
| `Shop.LookupPet` | src/commands/shop.js:71-80 | the catalogue's own entries only: found iff a pet has that name, agreeing with the as-written lookup on every catalogue name |
| `Shop.PetLine` | src/commands/shop.js:41-42 | one line of the list, never empty |
| `Shop.Listing` | src/commands/shop.js:40-44 | the list text is empty iff the catalogue is |
| `Shop.ListingAppend` | src/commands/shop.js:40-42 | the text of a catalogue with one more pet is the old text followed by that pet's line |
| `Shop.ListingOfPrefix` | src/commands/shop.js:40-42 | each pass of the loop appends exactly the next pet's line |
| `Shop.CreatePetList` | src/commands/shop.js:31-55 | the loop builds exactly `Listing`, which is empty iff the catalogue is |
| `Shop.Matching` | src/commands/shop.js:147-149 | never more choices than pets |
| `Shop.ChoiceOf` | src/commands/shop.js:149 | a pet's choice has the pet's name as its value and a label starting with its emoji and capitalised name |
| `Shop.ChoicePriceReadsBack` | src/commands/shop.js:149 | the price written in a choice's label reads back through `parseInt` as the pet's price |
| `Shop.MatchingMembers` | src/commands/shop.js:147-149 | exactly the pets whose name starts with the input are offered |
| `Shop.MatchingKeepsOrder` | src/commands/shop.js:147-149 | the choices keep catalogue order |
| `Shop.Autocomplete` | src/commands/shop.js:141-153 | an option other than `pet_name` gets no choices; every choice is a catalogue pet whose name starts with the lower-cased input; for `pet_name` every such pet is offered |
| `Shop.EmptyInputOffersEveryPet` | src/commands/shop.js:147-149 | with nothing typed every pet is offered, in catalogue order |
| `Shop.Buy` | src/commands/shop.js:70-102 | an unknown lower-cased name is refused and nothing changes; otherwise the pet is bought at its catalogue price, the reply shows the capitalised name and the new balance and the lower-cased name is appended to the pets; a failure is the ledger's error with nothing changed |
| `Shop.Shop` | src/commands/shop.js:57-114 | a missing, empty or `list` subcommand shows the list; `buy` with a name is `Buy`; `buy` without one is the unexpected-error reply; any other subcommand gets no reply; only a purchase changes the collection |
| `Shop.ShowsList` | src/commands/shop.js:62 | the list is shown iff the subcommand is missing, empty or `list`, never for `buy` |
| `Shop.BuyNamed` | src/commands/shop.js:70-102 | the reply and the collection are exactly those of `Buy` |
| `Shop.ExecuteCommand` | src/commands/shop.js:57-114 | the reply and the collection are exactly those of `Shop` |
| `Shop.PrefixExecute` | src/commands/shop.js:116-119 | `$shop` shows the list and changes nothing |
| `Shop.SlashExecute` | src/commands/shop.js:121-138 | a missing subcommand becomes `list`; the reply and the collection are those of `Shop` |
| `Shop.PricesPositive` | src/config/gameConfig.js:32-44 | every catalogue price is positive |
| `Shop.NamesShort` | src/config/gameConfig.js:32-44 | every catalogue name has at most 8 characters |
| `Shop.BuyFailsOnlyForFunds` | src/commands/shop.js:92-95 | with the real catalogue a failed purchase is always for want of coins |
| `Shop.InheritedNamePassesGuard` | src/commands/shop.js:71-73 | "Constructor" lower-cases to an inherited member that the guard as written lets through, and so does `__proto__`; the catalogue's own lookup refuses both |
| `Shop.BuyIgnoresCase` | src/commands/shop.js:71 | "Dog" finds the dog at 40000 and "CAT" the cat at 12000 |
| `Shop.CatalogueListIsShown` | src/commands/shop.js:44-51 | the real catalogue's list is never empty, and all 11 pets are offered for empty input |
| `CommandHandler.Register` | src/commands/commandHandler.js:24-38 | a nameless command changes nothing; the prefix map gains the name iff `prefixExecute` exists; the slash map gains it and the data grows by one iff `slashExecute` and the data exist; other entries stay and well-formedness is kept |
| `CommandHandler.ReRegisterDuplicatesData` | src/commands/commandHandler.js:34-37 | registering a slash command twice leaves the maps as after once but lists its data twice |
| `CommandHandler.RegisterEach` | src/commands/commandHandler.js:46-57 | registering a list keeps the tables well-formed |
| `CommandHandler.RegisterEachData` | src/commands/commandHandler.js:34-37 | the data grows by the number of slash commands registered |
| `CommandHandler.RegisterEachPrefixNames` | src/commands/commandHandler.js:30-32 | a name is in the prefix map iff it was already, or a registered command of that name has `prefixExecute` |
| `CommandHandler.RegisterEachSlashNames` | src/commands/commandHandler.js:34-37 | a name is in the slash map iff it was already, or a registered command of that name has `slashExecute` and data |
| `CommandHandler.RegisterEachConcat` | src/commands/commandHandler.js:46-57 | registering two lists one after the other is registering their concatenation |
| `CommandHandler.ModulesThatRegisterPrefix` | src/commands/commandHandler.js:48-57 | of the eight modules, only help, flip, roll, daily and beg register a prefix command |
| `CommandHandler.ModulesThatRegisterSlash` | src/commands/commandHandler.js:48-57 | of the eight modules, only help, flip, roll, daily and beg register a slash command |
| `CommandHandler.DualModulesRegistered` | src/commands/commandHandler.js:48-57 | each of help, flip, roll, daily and beg is among the modules registered |
| `CommandHandler.RegisteredPrefixNames` | src/commands/commandHandler.js:46-57 | after `registerAllCommands` a name is a prefix command iff it already was or is help, flip, roll, daily or beg |
| `CommandHandler.RegisteredSlashNames` | src/commands/commandHandler.js:46-57 | the same for slash commands |
| `CommandHandler.RegisteredSlashData` | src/commands/commandHandler.js:46-57 | `registerAllCommands` adds exactly five data entries |
| `CommandHandler.ModuleSlashCounts` | src/commands/commandHandler.js:48-57 | one core module and four game modules are slash commands |
| `CommandHandler.RegisterFour` | src/commands/commandHandler.js:48-57 | registering four commands is four `registerCommand` calls in order |
| `CommandHandler.Handler.constructor` | src/commands/commandHandler.js:13-15 | empty maps and empty data |
| `CommandHandler.Handler.RegisterCommand` | src/commands/commandHandler.js:24-38 | the tables become `Register` of the old ones |
| `CommandHandler.Handler.RegisterCoreCommands` | src/commands/commandHandler.js:48-51 | the tables become those after registering ping, balance, give and help |
| `CommandHandler.Handler.RegisterGameCommands` | src/commands/commandHandler.js:54-57 | the tables become those after registering flip, roll, daily and beg |
| `CommandHandler.Handler.RegisterAllCommands` | src/commands/commandHandler.js:46-61 | the tables become those after registering all eight modules in order |
| `CommandHandler.Handler.HandlePrefixCommand` | src/commands/commandHandler.js:71-86 | a command is found iff its name is in the prefix map, and it then has `prefixExecute`; an unknown name runs nothing |
| `CommandHandler.Handler.HandleSlashCommand` | src/commands/commandHandler.js:94-115 | a command is found iff its name is in the slash map, and it then has `slashExecute` and data; an unknown name runs nothing |
| `CommandHandler.Handler.GetSlashCommandsData` | src/commands/commandHandler.js:121-123 | the data as registered so far |
| `Text.DigitChar` | src/commands/leaderboard.js:51 | one decimal digit character of the given value |
| `Text.NatToString` | src/commands/leaderboard.js:51 | `String(n)` of a non-negative number: a non-empty run of digits with no leading zero |
| `Text.IntToString` | src/commands/shop.js:149 | `String(n)` of any integer: the digits of a non-negative number, a minus sign before the digits of a negative one |
| `Text.ParseIntOfIntToString` | src/commands/shop.js:149 | `parseInt(String(n) + rest)` is n for every integer n when rest does not start with a digit (and, for n = 0, not with "x") |
| `Text.DigitValue` | src/commands/give.js:39 | a character's digit value in the radix; in radix 10 defined exactly for decimal digits |
| `Text.DigitRun` | src/commands/give.js:39 | `parseInt` reads the longest prefix of digits and stops at the first non-digit |
| `Text.TrimStart` | src/commands/give.js:39 | the suffix left after dropping leading white space |
| `Text.ParseUnsigned` | src/commands/give.js:39 | the unsigned part of `parseInt` yields a number only for text starting with a decimal digit, and always does for such text unless it is a bare "0x" prefix with no hex digit after it |
| `Text.ParseSigned` | src/commands/give.js:39 | the sign and digits after the white space: a number only when the text starts with a digit, or with a sign followed by a digit; a negative result needs a leading minus |
| `Text.ParseInt` | src/commands/give.js:39 | `parseInt(s)`: a number only when, after leading white space, the text starts with a digit or a sign, and only when the text holds a decimal digit; a negative result needs a leading minus. Its values are pinned down by `ParseIntOfDecimal`, `ParseIntOfNegativeDecimal`, `ParseIntOfIntToString`, `ParseIntOfDigitFirst`, `ParseIntOfMinus`, `ParseIntWithoutDigits` and the `ParseUnsigned` lemmas |
| `Text.ParseArg` | src/commands/flip.js:25 | `parseInt(args[i])`: a missing argument is `undefined` and reads as NaN; a present one is `parseInt` of it |
| `Text.IsPositiveAmount` | src/commands/flip.js:27 | the guard against a NaN or non-positive amount lets through exactly the numbers of at least 1 |
| `Text.DecimalArgument` | src/commands/flip.js:25-27 | an argument written as `String(n)` reads as n and passes the guard iff n is positive |
| `Text.DigitsValueOfNatToString` | src/commands/give.js:39 | the digits `String(n)` writes denote n |
| `Text.DigitRunOfDigitsThenOther` | src/commands/give.js:39 | the digit run of digits followed by a non-digit is exactly the digits |
| `Text.ParseUnsignedOfDecimal` | src/commands/give.js:39 | the unsigned part of `parseInt` reads back n from `String(n)` followed by a non-digit |
| `Text.ParseIntOfDecimal` | src/commands/give.js:39 | `parseInt(String(n) + rest)` is n when rest does not start with a digit (and, for n = 0, not with "x") |
| `Text.ParseIntOfDigitFirst` | src/commands/give.js:39 | text starting with a digit parses with no sign and no white space skipped |
| `Text.ParseIntOfMinus` | src/commands/give.js:39 | a leading minus negates the unsigned value that follows |
| `Text.ParseIntOfNegativeDecimal` | src/commands/give.js:39 | `parseInt("-" + String(n) + rest)` is −n |
| `Text.ParseUnsignedWithoutLeadingDigit` | src/commands/give.js:39-41 | unsigned text not starting with a digit reads nothing |
| `Text.ParseIntWithoutDigits` | src/commands/give.js:39-41 | text with no decimal digit parses as NaN |
| `Text.ParseIntSkipsSpace` | src/commands/flip.js:25 | `parseInt` skips any leading white space, the Unicode space separators included |
| `Text.IdeographicSpaceBeforeDigits` | src/commands/flip.js:25 | an ideographic space (U+3000) before `String(n)` is skipped and n is read |
| `Text.StripNonDigits` | src/commands/give.js:29 | `replace(/[^0-9]/g, '')`: only digits remain, never more characters than were given |
| `Text.StripNonDigitsAppend` | src/commands/give.js:29 | stripping a concatenation is concatenating the stripped parts |
| `Text.StripNonDigitsKeepsDigits` | src/commands/give.js:29 | a run of digits strips to itself |
| `Text.StripNonDigitsDropsOthers` | src/commands/give.js:29 | text without digits strips to nothing |
| `Text.StripAroundDigits` | src/commands/give.js:29 | digits surrounded by digit-free text strip to exactly those digits |
| `Text.MentionStripsToId` | src/commands/give.js:29 | both mention forms `<@id>` and `<@!id>` strip to the id |
| `Text.ToLower` | src/commands/shop.js:71 | `toLowerCase` keeps the length and lower-cases character by character |
| `Text.ToLowerFacts` | src/commands/shop.js:146 | the result has no upper-case letter, and lower-case text is its own lower case |
| `Text.StartsWith` | src/commands/shop.js:148 | `startsWith`: the prefix is no longer than the text and matches it character by character, so the text is the prefix followed by the rest |
| `Text.Capitalize` | src/commands/shop.js:86 | the first character upper-cased, the rest unchanged, the length kept |
| `Text.TrimEnd` | src/commands/daily.js:35 | the prefix left after dropping trailing white space |
| `Text.TrimKeepsFirst` | src/commands/daily.js:35 | text starting with a non-space keeps that character first when trimmed |
| `Text.Trim` | src/commands/daily.js:35 | `trim`: no white space at either end, and empty iff the text is all white space |

## Left out

- Discord I/O is not modelled. This covers `deferReply`, `followUp`, `reply`, `channel.send`, embeds and the slash-command builders. Replies are datatype values. Message text is modelled only where a contract speaks about it: the time text, list lines and rank labels.
- The slash handlers that defer the reply themselves are not modelled, after `handleSlashCommand` has already deferred it. These are roll.js:60, shop.js:124, leaderboard.js:81, add_coins.js:72 and bank_withdraw.js:44. How discord.js answers a second deferral is outside the model.
- Firestore is not modelled: its transaction retries, concurrency and interleaving. Each `runTransaction` is one atomic step on the map.
- Storage errors are not modelled, nor the `catch` blocks that turn them into replies. This covers `getBalance`'s `return 0` and `getAllUserBalances`' `return []`.
- `Math.random()` is a `real` parameter in [0, 1). `Date.now()` is an integer parameter. `process.env.BOT_OWNER_ID` is an `Option` parameter.
- `client.users.fetch` becomes a parameter. For give it is whether the receiver was found. The `UnknownReceiver` reply of `Give.Give` stands for the `!receiverUser` branch of give.js:47-49, but discord.js's `fetch` rejects an unknown id instead of resolving empty, so the program answers from the catch at give.js:63-66 with the error text. Both paths leave the collection unchanged. For the leaderboard it is the usernames Discord knows.
- A coins field that is absent, null or otherwise not a number counts as 0, through `|| 0` and `getBalance`'s `typeof` check. A truthy non-number such as a string, and `NaN`, are not modelled.
- `getUserData`, `setBankedStatus`, `buyPet` and `depositCoins` are called but not defined in coinManager.js. They are given the behaviour their callers rely on:
  - `getUserData` reads the coins and the flag;
  - `setBankedStatus` writes the flag;
  - `buyPet` debits the price and appends the pet;
  - `depositCoins` moves coins to the bank and turns safe mode on.
- Leaderboard.SortByCoins: `Array.prototype.sort` sorts in place. The model sorts a sequence by a stable insertion, so the order it gives among equal balances is one of those the built-in may give.
- The slash forms read `interaction.options.getInteger(...)` as an integer. Discord's `setMinValue(1)` is not assumed, so a non-positive value reaches the ledger's own check.
- The prefix forms of `/raid` and `/bank_withdraw` only reply with fixed text, and are not modelled.
- The raid's checks of its target option (a missing user, a bot) are part of the Discord I/O.
- The shop operations take the catalogue as a parameter. The lemmas about the real catalogue apply them to `PET_PRICES`.
- Text.ToLower, Text.Capitalize: only ASCII letters change case. Unicode case mapping is not modelled.
- Text.DigitValue: `parseInt` reads base 16 after "0x". Those digits are modelled, but no lemma is stated about hexadecimal input.
- A registered command is modelled by its name, by whether it has `prefixExecute` and `slashExecute`, and by its slash data, represented by its name.
- ping.js, balance.js and give.js define only `execute`, so `registerCommand` files them in neither map. The model registers them as such. Give's own logic is modelled in `Give.Execute`.
- `registerAllCommands` does not register raid, shop, leaderboard, the bank commands, add_coins or deduct_coins, and the model registers them nowhere.
- `index.js` is not part of this model. It calls a `commandHandler.handle` that the handler does not export.
- help.js and profile.js are not modelled: each is reads and formatting. firebaseConfig.js, keepAlive.js and richPresence.js are not part of this model.
- Logging is not modelled.
- Text.ParseInt: returns the exact integer of any digit string, while JavaScript's `parseInt` rounds to the nearest double above `Number.MAX_SAFE_INTEGER` (2^53 - 1).
- Ledger.UpdateTxn: `currentCoins + delta` is exact integer addition, while coinManager.js:131 adds doubles, which round once a balance passes 2^53 - 1 (reachable through repeated `/add_coins`).
- Ledger.TransferTxn: the sender's subtraction and the receiver's addition (coinManager.js:102 and 105) are exact, so the proved conservation of the two users' total holds in the program only while both balances and the amount stay below 2^53 - 1.

## Findings

| source | as written | input that shows it | evidently intended | confidence | as-written member | corrected member |
|---|---|---|---|---|---|---|
| src/commands/bank_deposit.js:3 | imports `BANK_COOLDOWN_MS`, which gameConfig.js does not export, so it is `undefined` and `now - lastUsed < undefined` is always false | two `/bank_deposit 10` calls one millisecond apart: the second is not refused | the 24-hour `BANK_TOGGLE_COOLDOWN_MS` gate | not executed | `BankDeposit.AsWrittenDepositsRepeat` | `BankDeposit.CorrectedOneDepositPerDay` |
| src/commands/shop.js:71 | `PET_PRICES[petName]` also finds members inherited from `Object.prototype`, so the "invalid pet" guard lets them through and `buyPet` is called with an `undefined` price | `/shop buy Constructor` (or `__proto__`) | only the catalogue's own pets pass the guard | not executed | `Shop.InheritedNamePassesGuard` | `Shop.LookupPet` |

`BankDeposit.MakeDeposit` and `BankDeposit.BankDepositCommand` take the cooldown their gate reads as a parameter: `ImportedCooldown()` is the command as written, and `Some(BANK_TOGGLE_COOLDOWN_MS)` the corrected one, about which the 24-hour properties are proved. `Shop.Buy` looks pets up with the corrected `Shop.LookupPet`.
