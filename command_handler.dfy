/**
 * src/commands/commandHandler.js: the prefix and slash command tables, their
 * registration and the lookup that dispatches an incoming command.
 */
module CommandHandler {
  import opened Base

  /**
   * What registration looks at in a command module: its `name` (empty when
   * missing), whether `prefixExecute` and `slashExecute` are functions, and
   * `slashCommandData.toJSON()` when `slashCommandData` is present.
   */
  datatype Command = Command(name: string, hasPrefixExecute: bool, hasSlashExecute: bool, slashData: Option<string>)

  /** `prefixCommands`, `slashCommands` and `slashCommandsData`. */
  datatype Tables = Tables(prefixCommands: map<string, Command>, slashCommands: map<string, Command>, slashCommandsData: seq<string>)

  predicate IsPrefixCommand(c: Command) { c.name != [] && c.hasPrefixExecute }

  predicate IsSlashCommand(c: Command) { c.name != [] && c.hasSlashExecute && c.slashData.Some? }

  /** Every entry sits under its own name and can run in the way its table promises. */
  predicate WellFormed(t: Tables) {
    (forall n :: n in t.prefixCommands ==> t.prefixCommands[n].name == n && IsPrefixCommand(t.prefixCommands[n]))
    && (forall n :: n in t.slashCommands ==> t.slashCommands[n].name == n && IsSlashCommand(t.slashCommands[n]))
  }

  const Empty: Tables := Tables(map[], map[], [])

  /** `registerCommand(command)`. */
  function Register(t: Tables, c: Command): (r: Tables)
    ensures c.name == [] ==> r == t
    ensures forall n :: n in r.prefixCommands <==> n in t.prefixCommands || (n == c.name && IsPrefixCommand(c))
    ensures forall n :: n in r.slashCommands <==> n in t.slashCommands || (n == c.name && IsSlashCommand(c))
    ensures IsPrefixCommand(c) ==> r.prefixCommands[c.name] == c
    ensures IsSlashCommand(c) ==> r.slashCommands[c.name] == c
    ensures forall n :: n in t.prefixCommands && n != c.name ==> r.prefixCommands[n] == t.prefixCommands[n]
    ensures forall n :: n in t.slashCommands && n != c.name ==> r.slashCommands[n] == t.slashCommands[n]
    ensures IsSlashCommand(c) ==> r.slashCommandsData == t.slashCommandsData + [c.slashData.value]
    ensures !IsSlashCommand(c) ==> r.slashCommandsData == t.slashCommandsData
    ensures WellFormed(t) ==> WellFormed(r)
  {
    if c.name == [] then t
    else
      var prefix := if c.hasPrefixExecute then t.prefixCommands[c.name := c] else t.prefixCommands;
      if c.hasSlashExecute && c.slashData.Some? then
        Tables(prefix, t.slashCommands[c.name := c], t.slashCommandsData + [c.slashData.value])
      else
        Tables(prefix, t.slashCommands, t.slashCommandsData)
  }

  /** Registering the same command twice leaves the maps as once, but lists its slash data twice. */
  lemma ReRegisterDuplicatesData(t: Tables, c: Command)
    requires IsSlashCommand(c)
    ensures Register(Register(t, c), c).prefixCommands == Register(t, c).prefixCommands
    ensures Register(Register(t, c), c).slashCommands == Register(t, c).slashCommands
    ensures Register(Register(t, c), c).slashCommandsData == t.slashCommandsData + [c.slashData.value, c.slashData.value]
  {
    var once := Register(t, c);
    var twice := Register(once, c);
    assert twice.prefixCommands == once.prefixCommands;
    assert twice.slashCommands == once.slashCommands;
  }

  /** Registering each command of `commands` in turn. */
  function RegisterEach(t: Tables, commands: seq<Command>): (r: Tables)
    ensures WellFormed(t) ==> WellFormed(r)
    decreases |commands|
  {
    if commands == [] then t else RegisterEach(Register(t, commands[0]), commands[1..])
  }

  /** Each command that registers as a slash command adds one data entry. */
  lemma {:induction false} RegisterEachData(t: Tables, commands: seq<Command>)
    ensures |RegisterEach(t, commands).slashCommandsData| == |t.slashCommandsData| + SlashCount(commands)
    decreases |commands|
  {
    if commands != [] {
      RegisterEachData(Register(t, commands[0]), commands[1..]);
    }
  }

  /** How many of `commands` register as slash commands. */
  function SlashCount(commands: seq<Command>): nat
  {
    if commands == [] then 0
    else (if IsSlashCommand(commands[0]) then 1 else 0) + SlashCount(commands[1..])
  }

  /** A name is in the prefix table after registering `commands` iff it was, or one of them registers it. */
  lemma {:induction false} RegisterEachPrefixNames(t: Tables, commands: seq<Command>, n: string)
    ensures n in RegisterEach(t, commands).prefixCommands <==>
      n in t.prefixCommands || exists c :: c in commands && c.name == n && IsPrefixCommand(c)
    decreases |commands|
  {
    if commands != [] {
      RegisterEachPrefixNames(Register(t, commands[0]), commands[1..], n);
      assert forall c :: c in commands ==> c == commands[0] || c in commands[1..];
    }
  }

  /** The same for the slash table. */
  lemma {:induction false} RegisterEachSlashNames(t: Tables, commands: seq<Command>, n: string)
    ensures n in RegisterEach(t, commands).slashCommands <==>
      n in t.slashCommands || exists c :: c in commands && c.name == n && IsSlashCommand(c)
    decreases |commands|
  {
    if commands != [] {
      RegisterEachSlashNames(Register(t, commands[0]), commands[1..], n);
      assert forall c :: c in commands ==> c == commands[0] || c in commands[1..];
    }
  }

  // ------------------------------------------------------------------ the modules registerAllCommands loads

  /** A module that only defines `execute` (ping.js, balance.js, give.js). */
  function ExecuteOnly(name: string): Command { Command(name, false, false, None) }

  /** A module with `prefixExecute`, `slashExecute` and `slashCommandData` (help, flip, roll, daily, beg). */
  function Dual(name: string): Command { Command(name, true, true, Some(name)) }

  /** The calls of `registerAllCommands`, in order; the slash data stands for each module's JSON. */
  const CoreModules: seq<Command> := [ExecuteOnly("ping"), ExecuteOnly("balance"), ExecuteOnly("give"), Dual("help")]
  const GameModules: seq<Command> := [Dual("flip"), Dual("roll"), Dual("daily"), Dual("beg")]
  const RegisteredModules: seq<Command> := CoreModules + GameModules

  const DualNames: set<string> := {"help", "flip", "roll", "daily", "beg"}

  lemma {:induction false} RegisterEachConcat(t: Tables, first: seq<Command>, second: seq<Command>)
    ensures RegisterEach(t, first + second) == RegisterEach(RegisterEach(t, first), second)
    decreases |first|
  {
    if first == [] {
      assert first + second == second;
    } else {
      assert (first + second)[0] == first[0];
      assert (first + second)[1..] == first[1..] + second;
      RegisterEachConcat(Register(t, first[0]), first[1..], second);
    }
  }

  lemma ModulesThatRegisterPrefix(c: Command)
    requires c in RegisteredModules && IsPrefixCommand(c)
    ensures c.name in DualNames
  {
  }

  lemma ModulesThatRegisterSlash(c: Command)
    requires c in RegisteredModules && IsSlashCommand(c)
    ensures c.name in DualNames
  {
  }

  lemma DualModulesRegistered(n: string)
    requires n in DualNames
    ensures Dual(n) in RegisteredModules
  {
    assert n == "help" || n == "flip" || n == "roll" || n == "daily" || n == "beg";
    assert RegisteredModules[3] == Dual("help") && RegisteredModules[4] == Dual("flip");
    assert RegisteredModules[5] == Dual("roll") && RegisteredModules[6] == Dual("daily");
    assert RegisteredModules[7] == Dual("beg");
  }

  /** `registerAllCommands` adds exactly help, flip, roll, daily and beg to the prefix table. */
  lemma RegisteredPrefixNames(t: Tables, n: string)
    ensures n in RegisterEach(t, RegisteredModules).prefixCommands <==> n in t.prefixCommands || n in DualNames
  {
    RegisterEachPrefixNames(t, RegisteredModules, n);
    if n in DualNames {
      DualModulesRegistered(n);
    }
    if c :| c in RegisteredModules && c.name == n && IsPrefixCommand(c) {
      ModulesThatRegisterPrefix(c);
    }
  }

  /** The same five, and no others, are added to the slash table. */
  lemma RegisteredSlashNames(t: Tables, n: string)
    ensures n in RegisterEach(t, RegisteredModules).slashCommands <==> n in t.slashCommands || n in DualNames
  {
    RegisterEachSlashNames(t, RegisteredModules, n);
    if n in DualNames {
      DualModulesRegistered(n);
    }
    if c :| c in RegisteredModules && c.name == n && IsSlashCommand(c) {
      ModulesThatRegisterSlash(c);
    }
  }

  /** Five slash definitions are added for Discord. */
  lemma RegisteredSlashData(t: Tables)
    ensures |RegisterEach(t, RegisteredModules).slashCommandsData| == |t.slashCommandsData| + 5
  {
    RegisterEachConcat(t, CoreModules, GameModules);
    RegisterEachData(t, CoreModules);
    RegisterEachData(RegisterEach(t, CoreModules), GameModules);
    ModuleSlashCounts();
  }

  lemma ModuleSlashCounts()
    ensures SlashCount(CoreModules) == 1 && SlashCount(GameModules) == 4
  {
  }

  /** Registering four commands one after another. */
  lemma RegisterFour(t: Tables, commands: seq<Command>)
    requires |commands| == 4
    ensures RegisterEach(t, commands)
      == Register(Register(Register(Register(t, commands[0]), commands[1]), commands[2]), commands[3])
  {
    var t1 := Register(t, commands[0]);
    var t2 := Register(t1, commands[1]);
    var t3 := Register(t2, commands[2]);
    assert commands[1..][1..][1..][1..] == [];
    assert RegisterEach(t3, commands[1..][1..][1..]) == Register(t3, commands[3]);
    assert RegisterEach(t2, commands[1..][1..]) == RegisterEach(t3, commands[1..][1..][1..]);
    assert RegisterEach(t1, commands[1..]) == RegisterEach(t2, commands[1..][1..]);
  }

  // ------------------------------------------------------------------ the module-level tables

  class Handler {
    var prefixCommands: map<string, Command>
    var slashCommands: map<string, Command>
    var slashCommandsData: seq<string>

    function Current(): Tables
      reads this
    {
      Tables(prefixCommands, slashCommands, slashCommandsData)
    }

    ghost predicate Valid()
      reads this
    {
      WellFormed(Current())
    }

    constructor()
      ensures Valid() && Current() == Empty
    {
      prefixCommands := map[];
      slashCommands := map[];
      slashCommandsData := [];
    }

    /** `registerCommand`. */
    method RegisterCommand(command: Command)
      requires Valid()
      modifies this
      ensures Valid()
      ensures Current() == Register(old(Current()), command)
    {
      if command.name == [] {
        return;
      }
      if command.hasPrefixExecute {
        prefixCommands := prefixCommands[command.name := command];
      }
      if command.hasSlashExecute && command.slashData.Some? {
        slashCommands := slashCommands[command.name := command];
        slashCommandsData := slashCommandsData + [command.slashData.value];
      }
    }

    /** The first four calls of `registerAllCommands`: the core commands. */
    method RegisterCoreCommands()
      requires Valid()
      modifies this
      ensures Valid()
      ensures Current() == RegisterEach(old(Current()), CoreModules)
    {
      ghost var t0 := Current();
      RegisterCommand(ExecuteOnly("ping"));
      RegisterCommand(ExecuteOnly("balance"));
      RegisterCommand(ExecuteOnly("give"));
      RegisterCommand(Dual("help"));
      RegisterFour(t0, CoreModules);
    }

    /** The last four calls: the game and activity commands. */
    method RegisterGameCommands()
      requires Valid()
      modifies this
      ensures Valid()
      ensures Current() == RegisterEach(old(Current()), GameModules)
    {
      ghost var t0 := Current();
      RegisterCommand(Dual("flip"));
      RegisterCommand(Dual("roll"));
      RegisterCommand(Dual("daily"));
      RegisterCommand(Dual("beg"));
      RegisterFour(t0, GameModules);
    }

    /** `registerAllCommands`. */
    method RegisterAllCommands()
      requires Valid()
      modifies this
      ensures Valid()
      ensures Current() == RegisterEach(old(Current()), RegisteredModules)
    {
      RegisterCoreCommands();
      RegisterGameCommands();
      RegisterEachConcat(old(Current()), CoreModules, GameModules);
    }

    /** `handlePrefixCommand`: the command whose `prefixExecute` runs; an unknown name runs nothing. */
    method HandlePrefixCommand(commandName: string) returns (command: Option<Command>)
      requires Valid()
      ensures command.Some? <==> commandName in prefixCommands
      ensures command.Some? ==>
        command.value == prefixCommands[commandName] && command.value.name == commandName && IsPrefixCommand(command.value)
    {
      command := Get(prefixCommands, commandName);
    }

    /** `handleSlashCommand`: the command whose `slashExecute` runs after the reply is deferred. */
    method HandleSlashCommand(commandName: string) returns (command: Option<Command>)
      requires Valid()
      ensures command.Some? <==> commandName in slashCommands
      ensures command.Some? ==>
        command.value == slashCommands[commandName] && command.value.name == commandName && IsSlashCommand(command.value)
    {
      command := Get(slashCommands, commandName);
    }

    /** `getSlashCommandsData`. */
    function GetSlashCommandsData(): (data: seq<string>)
      reads this
      ensures data == Current().slashCommandsData
    {
      slashCommandsData
    }
  }
}
