/** The game's settings: src/config/gameConfig.js, and the literals some command files repeat. */
module GameConfig {

  const Second: int := 1000
  const Minute: int := 60 * Second
  const Hour: int := 60 * Minute

  /** Balance of a user seen for the first time (coinManager.js keeps its own copy of it). */
  const DefaultBalance: int := 10000

  /** daily.js declares these itself; the exported values are the same. */
  const DailyReward: int := 5000
  const DailyCooldownMs: int := 24 * Hour

  /** beg.js declares these itself; the exported values are the same. */
  const MinBegReward: int := 1
  const MaxBegReward: int := 1000
  const BegCooldownMs: int := 5 * Minute

  const FlipWinChance: real := 0.5

  /** A winning roll pays `amount * (RollWinMultiplier - 1)`. */
  const RollWinMultiplier: int := 6
  const RollWinCondition: int := 6

  const RaidSuccessChance: real := 0.5
  const RaidMaxPercentage: real := 0.25
  const RaidCooldownMs: int := 1 * Hour
  /** raid.js writes this floor as the literal 100. */
  const MinRaidBalance: int := 100

  const BankToggleCooldownMs: int := 24 * Hour

  /** leaderboard.js shows `slice(0, 10)`. */
  const LeaderboardSize: int := 10

  /** One entry of `PET_PRICES`. */
  datatype PetInfo = PetInfo(name: string, price: int, emoji: string)

  /** `PET_PRICES`, in declaration order (the order `for ... in` and `Object.keys` visit). */
  const PetPrices: seq<PetInfo> := [
    PetInfo("dog", 40000, "\U{1F436}"),
    PetInfo("cat", 12000, "\U{1F431}"),
    PetInfo("hamster", 1000000, "\U{1F439}"),
    PetInfo("rabbit", 5000, "\U{1F430}"),
    PetInfo("parrot", 8000, "\U{1F99C}"),
    PetInfo("horse", 25000, "\U{1F40E}"),
    PetInfo("squirrel", 7000, "\U{1F43F}\U{FE0F}"),
    PetInfo("goldfish", 5000, "\U{1F420}"),
    PetInfo("eagle", 50000, "\U{1F985}"),
    PetInfo("lion", 80000, "\U{1F981}"),
    PetInfo("tiger", 100000, "\U{1F42F}")
  ]

  /** The names gameConfig.js exports; importing any other name yields `undefined`. */
  const ExportedNames: set<string> := {
    "DEFAULT_BALANCE", "DAILY_REWARD", "DAILY_COOLDOWN_MS",
    "MIN_BEG_REWARD", "MAX_BEG_REWARD", "BEG_COOLDOWN_MS",
    "FLIP_WIN_CHANCE", "ROLL_WIN_MULTIPLIER", "ROLL_WIN_CONDITION",
    "RAID_SUCCESS_CHANCE", "RAID_MAX_PERCENTAGE", "RAID_COOLDOWN_MS",
    "BANK_TOGGLE_COOLDOWN_MS", "PET_PRICES"
  }
}
