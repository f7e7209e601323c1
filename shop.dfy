/**
 * `$shop` and `/shop list | buy pet_name`: the pet catalogue, purchases and
 * name completion. The operations take the catalogue (`PET_PRICES`) as the
 * parameter `pets`; the lemmas at the end apply them to `GameConfig.PetPrices`.
 */
module Shop {
  import opened Base
  import opened Text
  import opened Ledger
  import opened GameConfig

  // ------------------------------------------------------------------ looking up a pet

  /** The entry named `name`, if the catalogue has one (the first, should a name repeat). */
  function FindPet(pets: seq<PetInfo>, name: string): (r: Option<PetInfo>)
    ensures r.Some? ==> r.value.name == name
  {
    if pets == [] then None
    else if pets[0].name == name then Some(pets[0])
    else FindPet(pets[1..], name)
  }

  /** Exactly the names in `pets` are found, each with its own entry. */
  lemma {:induction false} FindPetFindsEntries(pets: seq<PetInfo>, name: string)
    ensures FindPet(pets, name).Some? ==> FindPet(pets, name).value in pets
    ensures FindPet(pets, name).None? <==> forall p :: p in pets ==> p.name != name
  {
    if pets != [] {
      FindPetFindsEntries(pets[1..], name);
      assert forall p :: p in pets ==> p == pets[0] || p in pets[1..];
    }
  }

  /** What `PET_PRICES[key]` yields: an own entry, a truthy property inherited from `Object.prototype`, or `undefined`. */
  datatype Lookup = Own(info: PetInfo) | Inherited | Missing

  /** The properties every plain object inherits from `Object.prototype`. */
  const ObjectPrototypeKeys: set<string> := {
    "constructor", "__proto__", "hasOwnProperty", "isPrototypeOf", "propertyIsEnumerable",
    "toString", "toLocaleString", "valueOf",
    "__defineGetter__", "__defineSetter__", "__lookupGetter__", "__lookupSetter__"
  }

  /** `PET_PRICES[key]` as written: a key the catalogue lacks still finds an inherited property. */
  function LookupAsWritten(pets: seq<PetInfo>, key: string): (r: Lookup)
    ensures r.Own? ==> r.info.name == key
    ensures r.Missing? <==> (forall p :: p in pets ==> p.name != key) && key !in ObjectPrototypeKeys
    ensures r.Inherited? <==> (forall p :: p in pets ==> p.name != key) && key in ObjectPrototypeKeys
  {
    FindPetFindsEntries(pets, key);
    match FindPet(pets, key)
    case Some(info) => Own(info)
    case None => if key in ObjectPrototypeKeys then Inherited else Missing
  }

  /** The `!petInfo` guard as written: it lets through every key that is not `Missing`. */
  predicate PassesGuardAsWritten(pets: seq<PetInfo>, key: string) {
    !LookupAsWritten(pets, key).Missing?
  }

  /** The lookup the buy path relies on: the catalogue's own entries only. */
  function LookupPet(pets: seq<PetInfo>, key: string): (r: Option<PetInfo>)
    ensures r.Some? ==> r.value in pets && r.value.name == key
    ensures r.None? <==> forall p :: p in pets ==> p.name != key
    ensures r.Some? <==> LookupAsWritten(pets, key).Own?
  {
    FindPetFindsEntries(pets, key);
    FindPet(pets, key)
  }

  // ------------------------------------------------------------------ the list

  /** One line of the list: emoji, capitalised name and price. */
  function PetLine(p: PetInfo): (line: string)
    ensures line != []
  {
    p.emoji + " **" + Capitalize(p.name) + "**: **" + IntToString(p.price) + "** \U{1F4B0}\n"
  }

  /** The list text: every pet's line, in catalogue order; empty only for an empty catalogue. */
  function Listing(pets: seq<PetInfo>): (text: string)
    ensures text == [] <==> pets == []
  {
    if pets == [] then [] else PetLine(pets[0]) + Listing(pets[1..])
  }

  lemma {:induction false} ListingAppend(pets: seq<PetInfo>, p: PetInfo)
    ensures Listing(pets + [p]) == Listing(pets) + PetLine(p)
  {
    if pets != [] {
      assert (pets + [p])[1..] == pets[1..] + [p];
      ListingAppend(pets[1..], p);
    }
  }

  lemma ListingOfPrefix(pets: seq<PetInfo>, i: nat)
    requires i < |pets|
    ensures Listing(pets[..i + 1]) == Listing(pets[..i]) + PetLine(pets[i])
  {
    assert pets[..i + 1] == pets[..i] + [pets[i]];
    ListingAppend(pets[..i], pets[i]);
  }

  /** The `for ... in PET_PRICES` loop of `createPetListEmbed`, appending one line per pet. */
  method CreatePetList(pets: seq<PetInfo>) returns (description: string)
    ensures description == Listing(pets)
    ensures description == [] <==> pets == []
  {
    description := [];
    for i := 0 to |pets|
      invariant description == Listing(pets[..i])
    {
      ListingOfPrefix(pets, i);
      description := description + PetLine(pets[i]);
    }
    assert pets[..|pets|] == pets;
  }

  // ------------------------------------------------------------------ autocomplete

  datatype Choice = Choice(name: string, value: string)

  /** The label of a pet's autocomplete choice up to its price. */
  function ChoiceHead(p: PetInfo): string {
    p.emoji + " " + Capitalize(p.name) + " ("
  }

  /** One autocomplete choice: the pet's name as the value, its emoji, display name and price as the label. */
  function ChoiceOf(p: PetInfo): (c: Choice)
    ensures c.value == p.name
    ensures |ChoiceHead(p)| <= |c.name| && c.name[..|ChoiceHead(p)|] == ChoiceHead(p)
  {
    Choice(ChoiceHead(p) + IntToString(p.price) + " \U{1F4B0})", p.name)
  }

  /** The price shown in a pet's choice label reads back, through `parseInt`, as the pet's price. */
  lemma ChoicePriceReadsBack(p: PetInfo)
    ensures ParseInt(ChoiceOf(p).name[|ChoiceHead(p)|..]) == Some(p.price)
  {
    var tail := " \U{1F4B0})";
    assert ChoiceOf(p).name[|ChoiceHead(p)|..] == IntToString(p.price) + tail;
    ParseIntOfIntToString(p.price, tail);
  }

  function Names(pets: seq<PetInfo>): (r: seq<string>)
    ensures |r| == |pets| && forall i :: 0 <= i < |pets| ==> r[i] == pets[i].name
  {
    if pets == [] then [] else [pets[0].name] + Names(pets[1..])
  }

  function Values(choices: seq<Choice>): (r: seq<string>)
    ensures |r| == |choices| && forall i :: 0 <= i < |choices| ==> r[i] == choices[i].value
  {
    if choices == [] then [] else [choices[0].value] + Values(choices[1..])
  }

  /** `a` is `b` with some elements left out, the rest kept in order. */
  predicate IsSubsequence(a: seq<string>, b: seq<string>)
    decreases |b|
  {
    if a == [] then true
    else if b == [] then false
    else (a[0] == b[0] && IsSubsequence(a[1..], b[1..])) || IsSubsequence(a, b[1..])
  }

  /** `Object.keys(PET_PRICES).filter(pet => pet.startsWith(input)).map(...)`. */
  function Matching(pets: seq<PetInfo>, input: string): (r: seq<Choice>)
    ensures |r| <= |pets|
  {
    if pets == [] then []
    else
      var rest := Matching(pets[1..], input);
      if StartsWith(pets[0].name, input) then [ChoiceOf(pets[0])] + rest else rest
  }

  /** Exactly the pets whose name starts with `input` are offered. */
  lemma {:induction false} MatchingMembers(pets: seq<PetInfo>, input: string)
    ensures forall c :: c in Matching(pets, input) ==>
      exists p :: p in pets && StartsWith(p.name, input) && c == ChoiceOf(p)
    ensures forall p :: p in pets && StartsWith(p.name, input) ==> ChoiceOf(p) in Matching(pets, input)
  {
    if pets != [] {
      MatchingMembers(pets[1..], input);
      assert forall p :: p in pets ==> p == pets[0] || p in pets[1..];
    }
  }

  /** The suggestions keep the catalogue's order. */
  lemma {:induction false} MatchingKeepsOrder(pets: seq<PetInfo>, input: string)
    ensures IsSubsequence(Values(Matching(pets, input)), Names(pets))
  {
    if pets != [] {
      MatchingKeepsOrder(pets[1..], input);
      var rest := Matching(pets[1..], input);
      assert Names(pets)[1..] == Names(pets[1..]);
      if StartsWith(pets[0].name, input) {
        assert Values([ChoiceOf(pets[0])] + rest)[1..] == Values(rest);
      }
    }
  }

  /** The choices offered while the user types `input` into the option `focusedName`. */
  function Autocomplete(pets: seq<PetInfo>, focusedName: string, input: string): (choices: seq<Choice>)
    ensures focusedName != "pet_name" ==> choices == []
    ensures forall c :: c in choices ==> LookupPet(pets, c.value).Some? && StartsWith(c.value, ToLower(input))
    ensures focusedName == "pet_name" ==>
      forall p :: p in pets && StartsWith(p.name, ToLower(input)) ==> ChoiceOf(p) in choices
  {
    MatchingMembers(pets, ToLower(input));
    if focusedName == "pet_name" then Matching(pets, ToLower(input)) else []
  }

  lemma MatchingOfEmptyStep(pets: seq<PetInfo>)
    requires pets != []
    ensures Matching(pets, "") == [ChoiceOf(pets[0])] + Matching(pets[1..], "")
  {
    assert pets[0].name[..0] == "";
  }

  /** With nothing typed yet every pet is suggested. */
  lemma {:induction false} EmptyInputOffersEveryPet(pets: seq<PetInfo>)
    ensures |Matching(pets, "")| == |pets|
    ensures forall i :: 0 <= i < |pets| ==> Matching(pets, "")[i] == ChoiceOf(pets[i])
  {
    if pets != [] {
      EmptyInputOffersEveryPet(pets[1..]);
      var rest := Matching(pets[1..], "");
      MatchingOfEmptyStep(pets);
      forall i | 1 <= i < |pets|
        ensures Matching(pets, "")[i] == ChoiceOf(pets[i])
      {
        assert pets[i] == pets[1..][i - 1];
      }
    }
  }

  // ------------------------------------------------------------------ the command

  datatype Reply =
    | PetList(description: string)
    | InvalidPet(petName: string)
    | Bought(displayName: string, emoji: string, price: int, newBalance: int, petCount: int)
    | BuyFailed(displayName: string, price: int, error: LedgerError)
    | UnexpectedError
    | NoReply

  datatype Outcome = Outcome(reply: Reply, store: Store)

  /** `subcommand === 'list' || !subcommand`: a missing or empty subcommand is falsy. */
  predicate ShowsList(subcommand: Option<string>): (b: bool)
    ensures b <==> subcommand == None || subcommand == Some("list") || subcommand == Some("")
    ensures b ==> subcommand != Some("buy")
  {
    subcommand.None? || subcommand.value == "list" || subcommand.value == ""
  }

  /** The buy path once a name is given: the catalogue's own lookup of its lower-case form, then `buyPet`. */
  function Buy(pets: seq<PetInfo>, s: Store, userId: UserId, name: string): (o: Outcome)
    ensures o.reply.Bought? || o.reply.InvalidPet? || o.reply.BuyFailed?
    ensures o.reply.InvalidPet? <==> LookupPet(pets, ToLower(name)).None?
    ensures o.reply.InvalidPet? ==> o.reply.petName == name && o.store == s
    ensures o.reply.Bought? ==>
      var info := LookupPet(pets, ToLower(name)).value;
      o.reply.price == info.price && o.reply.emoji == info.emoji
      && o.reply.displayName == Capitalize(name)
      && o.reply.newBalance == Balance(o.store, userId) == Balance(s, userId) - info.price
      && userId in o.store
      && o.store[userId].pets == (if userId in s then s[userId].pets else []) + [ToLower(name)]
      && o.reply.petCount == |o.store[userId].pets|
    ensures o.reply.BuyFailed? ==>
      o.reply.price == LookupPet(pets, ToLower(name)).value.price
      && o.reply.displayName == Capitalize(name)
      && o.reply.error == (if o.reply.price <= 0 then NonPositiveAmount else InsufficientFunds)
      && (o.reply.price > 0 ==> Balance(s, userId) < o.reply.price)
      && o.store == s
    ensures SameExcept(s, o.store, {userId})
    ensures NonNegative(s) ==> NonNegative(o.store)
  {
    match LookupPet(pets, ToLower(name))
    case None => Outcome(InvalidPet(name), s)
    case Some(info) =>
      match PurchaseTxn(s, userId, ToLower(name), info.price)
      case Success(t) =>
        Outcome(Bought(Capitalize(name), info.emoji, info.price, Balance(t, userId), |t[userId].pets|), t)
      case Failure(e) => Outcome(BuyFailed(Capitalize(name), info.price, e), s)
  }

  /**
   * `executeCommand`: list, or buy the pet named `petName` in any case. A
   * `buy` without a name fails on `toLowerCase` and reaches the outer catch;
   * any other subcommand gets no reply.
   */
  function Shop(pets: seq<PetInfo>, s: Store, userId: UserId, subcommand: Option<string>, petName: Option<string>): (o: Outcome)
    ensures ShowsList(subcommand) ==> o == Outcome(PetList(Listing(pets)), s)
    ensures subcommand == Some("buy") && petName.Some? ==> o == Buy(pets, s, userId, petName.value)
    ensures subcommand == Some("buy") && petName.None? ==> o == Outcome(UnexpectedError, s)
    ensures o.reply.NoReply? <==> !ShowsList(subcommand) && subcommand != Some("buy")
    ensures !o.reply.Bought? ==> o.store == s
    ensures SameExcept(s, o.store, {userId})
    ensures NonNegative(s) ==> NonNegative(o.store)
  {
    if ShowsList(subcommand) then Outcome(PetList(Listing(pets)), s)
    else if subcommand.value == "buy" then
      if petName.None? then Outcome(UnexpectedError, s) else Buy(pets, s, userId, petName.value)
    else Outcome(NoReply, s)
  }

  /** The `buy` branch of `executeCommand` once a name is given. */
  method BuyNamed(coinManager: CoinManager, pets: seq<PetInfo>, userId: UserId, name: string) returns (reply: Reply)
    requires coinManager.Valid()
    modifies coinManager
    ensures coinManager.Valid()
    ensures reply == Buy(pets, old(coinManager.docs), userId, name).reply
    ensures coinManager.docs == Buy(pets, old(coinManager.docs), userId, name).store
  {
    var petInfo := LookupPet(pets, ToLower(name));
    if petInfo.None? {
      return InvalidPet(name);
    }
    var price := petInfo.value.price;
    var bought := coinManager.BuyPet(userId, ToLower(name), price);
    match bought
    case Success(purchase) =>
      reply := Bought(Capitalize(name), petInfo.value.emoji, price, purchase.newBalance, |purchase.ownedPets|);
    case Failure(e) =>
      reply := BuyFailed(Capitalize(name), price, e);
  }

  /** `executeCommand`. */
  method ExecuteCommand(coinManager: CoinManager, pets: seq<PetInfo>, userId: UserId,
                        subcommand: Option<string>, petName: Option<string>) returns (reply: Reply)
    requires coinManager.Valid()
    modifies coinManager
    ensures coinManager.Valid()
    ensures reply == Shop(pets, old(coinManager.docs), userId, subcommand, petName).reply
    ensures coinManager.docs == Shop(pets, old(coinManager.docs), userId, subcommand, petName).store
  {
    if subcommand.None? || subcommand.value == "list" || subcommand.value == "" {
      var description := CreatePetList(pets);
      return PetList(description);
    }
    if subcommand.value != "buy" {
      return NoReply;
    }
    if petName.None? {
      return UnexpectedError;
    }
    reply := BuyNamed(coinManager, pets, userId, petName.value);
  }

  /** `prefixExecute`: the prefix form always lists. */
  method PrefixExecute(coinManager: CoinManager, pets: seq<PetInfo>, userId: UserId) returns (reply: Reply)
    requires coinManager.Valid()
    modifies coinManager
    ensures coinManager.Valid()
    ensures reply == PetList(Listing(pets)) && coinManager.docs == old(coinManager.docs)
  {
    reply := ExecuteCommand(coinManager, pets, userId, Some("list"), None);
  }

  /** `slashExecute`: a missing (or empty) subcommand becomes `list`. */
  method SlashExecute(coinManager: CoinManager, pets: seq<PetInfo>, userId: UserId,
                      subcommand: Option<string>, petName: Option<string>) returns (reply: Reply)
    requires coinManager.Valid()
    modifies coinManager
    ensures coinManager.Valid()
    ensures reply == Shop(pets, old(coinManager.docs), userId, subcommand, petName).reply
    ensures coinManager.docs == Shop(pets, old(coinManager.docs), userId, subcommand, petName).store
  {
    var chosen := if subcommand.None? || subcommand.value == "" then Some("list") else subcommand;
    reply := ExecuteCommand(coinManager, pets, userId, chosen, petName);
  }

  // ------------------------------------------------------------------ the catalogue itself

  lemma PricesPositive()
    ensures forall p :: p in PetPrices ==> p.price > 0
  {
  }

  lemma NamesShort()
    ensures forall p :: p in PetPrices ==> |p.name| <= 8
  {
  }

  /** Every catalogue price is positive, so a failed purchase is always for want of coins. */
  lemma BuyFailsOnlyForFunds(s: Store, userId: UserId, name: string)
    requires Buy(PetPrices, s, userId, name).reply.BuyFailed?
    ensures Buy(PetPrices, s, userId, name).reply.error == InsufficientFunds
  {
    PricesPositive();
  }

  /** `/shop buy Constructor` passes the `!petInfo` guard as written, though no such pet exists. */
  lemma InheritedNamePassesGuard()
    ensures ToLower("Constructor") == "constructor"
    ensures LookupAsWritten(PetPrices, ToLower("Constructor")) == Inherited
    ensures PassesGuardAsWritten(PetPrices, "__proto__")
    ensures LookupPet(PetPrices, ToLower("Constructor")) == None && LookupPet(PetPrices, "__proto__") == None
  {
    assert ToLower("Constructor") == "constructor";
    NamesShort();
  }

  /** Pet names are matched whatever their case. */
  lemma BuyIgnoresCase()
    ensures LookupPet(PetPrices, ToLower("Dog")) == Some(PetInfo("dog", 40000, "\U{1F436}"))
    ensures LookupPet(PetPrices, ToLower("CAT")) == Some(PetInfo("cat", 12000, "\U{1F431}"))
  {
    assert ToLower("Dog") == "dog";
    assert ToLower("CAT") == "cat";
  }

  /** The real catalogue is never empty, so the list always shows pets. */
  lemma CatalogueListIsShown()
    ensures Listing(PetPrices) != []
    ensures |Matching(PetPrices, "")| == 11
  {
    EmptyInputOffersEveryPet(PetPrices);
  }
}
