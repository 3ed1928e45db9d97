/**
 * The per-guild `config` table and the three slash commands that read and
 * write it (`init`, `setreactcount`, `getreactcount`). A guild without a row
 * is uninitialized; `init` creates the row and nothing ever deletes it.
 */
module Config {
  import opened Wrappers
  import opened Discord

  /** One row of the `config` table, keyed by guild id. */
  datatype ConfigRow = ConfigRow(archiveChannel: Option<ChannelId>, reactTrigger: string, reactCount: int)

  type Store = map<GuildId, ConfigRow>

  /** Column defaults for `react_trigger` and `react_count`, set by the migrations. */
  datatype Defaults = Defaults(reactTrigger: string, reactCount: int)

  /** The channel that `init` fetched: its id and whether the caller may send messages there. */
  datatype ArchiveChannel = ArchiveChannel(id: ChannelId, callerCanSend: bool)

  /** The replies a command sends, one constructor per reply text. */
  datatype Reply =
    | ChannelNotFound(optionName: string)
    | NoSendPermission
    | InitFailed
    | Initialized(channel: ChannelId)
    | FetchCountFailed
    | NotInitialized
    | ReactCountIs(count: int)
    | ReactCountSet(count: int)

  /** The table after a command, and the replies the command sent in order. */
  datatype Outcome = Outcome(store: Store, replies: seq<Reply>)

  /** `getReactCount`: the guild's `react_count`, absent when it has no row. */
  function GetReactCount(store: Store, g: GuildId): (r: Option<int>)
    ensures r.Some? <==> g in store
    ensures r.Some? ==> r.value == store[g].reactCount
  {
    if g in store then Some(store[g].reactCount) else None
  }

  /** `getReactTrigger`: the guild's `react_trigger`, absent when it has no row. */
  function GetReactTrigger(store: Store, g: GuildId): (r: Option<string>)
    ensures r.Some? <==> g in store
    ensures r.Some? ==> r.value == store[g].reactTrigger
  {
    if g in store then Some(store[g].reactTrigger) else None
  }

  /**
   * The upsert of `init`: insert a row with the column defaults, or on conflict
   * set only `archive_channel_id`.
   */
  function Upsert(store: Store, d: Defaults, g: GuildId, c: ChannelId): (r: Store)
    ensures r.Keys == store.Keys + {g}
    ensures r[g].archiveChannel == Some(c)
    ensures g in store ==> r[g].reactTrigger == store[g].reactTrigger && r[g].reactCount == store[g].reactCount
    ensures g !in store ==> r[g].reactTrigger == d.reactTrigger && r[g].reactCount == d.reactCount
    ensures forall h :: h in store && h != g ==> r[h] == store[h]
  {
    var row := if g in store then store[g].(archiveChannel := Some(c))
               else ConfigRow(Some(c), d.reactTrigger, d.reactCount);
    store[g := row]
  }

  /** Running `init` twice for the same channel stores what running it once does. */
  lemma UpsertIdempotent(store: Store, d: Defaults, g: GuildId, c: ChannelId)
    ensures Upsert(Upsert(store, d, g, c), d, g, c) == Upsert(store, d, g, c)
  {
  }

  /** The `UPDATE ... SET react_count` of `setreactcount`: only existing rows change. */
  function UpdateCount(store: Store, g: GuildId, n: int): (r: Store)
    ensures r.Keys == store.Keys
    ensures g in store ==> r[g] == store[g].(reactCount := n)
    ensures forall h :: h in store && h != g ==> r[h] == store[h]
  {
    if g in store then store[g := store[g].(reactCount := n)] else store
  }

  /** The number of rows that `UpdateCount` changes (sqlite's `changes`). */
  function Changes(store: Store, g: GuildId): (r: nat)
    ensures r <= 1
    ensures r == 0 <==> g !in store
  {
    if g in store then 1 else 0
  }

  /** Whether `init` reaches a successful upsert. */
  predicate InitAccepted(guild: Option<GuildId>, fetched: Option<ArchiveChannel>, writeOk: bool) {
    guild.Some? && fetched.Some? && fetched.value.callerCanSend && writeOk
  }

  /**
   * `initCommand`: nothing outside a guild; otherwise the channel must exist and
   * the caller must be able to send there, then the upsert runs.
   */
  function InitOutcome(store: Store, d: Defaults, guild: Option<GuildId>, optionName: string,
                       fetched: Option<ArchiveChannel>, writeOk: bool): (o: Outcome)
    ensures !InitAccepted(guild, fetched, writeOk) ==> o.store == store
    ensures InitAccepted(guild, fetched, writeOk) ==>
      o.store == Upsert(store, d, guild.value, fetched.value.id) && o.replies == [Initialized(fetched.value.id)]
    ensures guild.None? <==> o.replies == []
    ensures guild.Some? ==> |o.replies| == 1
    ensures guild.Some? && fetched.None? ==> o.replies == [ChannelNotFound(optionName)]
    ensures guild.Some? && fetched.Some? && !fetched.value.callerCanSend ==> o.replies == [NoSendPermission]
    ensures guild.Some? && fetched.Some? && fetched.value.callerCanSend && !writeOk ==> o.replies == [InitFailed]
  {
    if guild.None? then Outcome(store, [])
    else if fetched.None? then Outcome(store, [ChannelNotFound(optionName)])
    else if !fetched.value.callerCanSend then Outcome(store, [NoSendPermission])
    else if !writeOk then Outcome(store, [InitFailed])
    else Outcome(Upsert(store, d, guild.value, fetched.value.id), [Initialized(fetched.value.id)])
  }

  /**
   * `setReactCountCommand`: the update runs without a permission check; zero
   * changed rows means the guild is not initialized. A failed write replies with
   * the "failed to fetch" text the handler uses.
   */
  function SetReactCountOutcome(store: Store, guild: Option<GuildId>, n: int, writeOk: bool): (o: Outcome)
    ensures o.store.Keys == store.Keys
    ensures guild.None? ==> o == Outcome(store, [])
    ensures guild.Some? && !writeOk ==> o == Outcome(store, [FetchCountFailed])
    ensures guild.Some? && writeOk && guild.value !in store ==> o == Outcome(store, [NotInitialized])
    ensures guild.Some? && writeOk && guild.value in store ==>
      o.store[guild.value] == store[guild.value].(reactCount := n) && o.replies == [ReactCountSet(n)]
    ensures forall h :: h in store && Some(h) != guild ==> o.store[h] == store[h]
  {
    if guild.None? then Outcome(store, [])
    else if !writeOk then Outcome(store, [FetchCountFailed])
    else if Changes(store, guild.value) == 0 then Outcome(store, [NotInitialized])
    else Outcome(UpdateCount(store, guild.value, n), [ReactCountSet(n)])
  }

  /**
   * `getReactCountCommand`. A failed read replies "failed", and because the
   * handler does not return there it then also replies "not initialized".
   */
  function GetReactCountOutcome(store: Store, guild: Option<GuildId>, readOk: bool): (o: Outcome)
    ensures o.store == store
    ensures guild.None? <==> o.replies == []
    ensures guild.Some? && !readOk ==> o.replies == [FetchCountFailed, NotInitialized]
    ensures guild.Some? && readOk && guild.value !in store ==> o.replies == [NotInitialized]
    ensures guild.Some? && readOk && guild.value in store ==> o.replies == [ReactCountIs(store[guild.value].reactCount)]
  {
    if guild.None? then Outcome(store, [])
    else
      var count := if readOk then GetReactCount(store, guild.value) else None;
      var failed := if readOk then [] else [FetchCountFailed];
      match count
      case None => Outcome(store, failed + [NotInitialized])
      case Some(n) => Outcome(store, [ReactCountIs(n)])
  }

  /** A command invocation together with the outcomes of its platform and store calls. */
  datatype Command =
    | InitCmd(guild: Option<GuildId>, optionName: string, fetched: Option<ArchiveChannel>, writeOk: bool)
    | SetReactCountCmd(guild: Option<GuildId>, n: int, writeOk: bool)
    | GetReactCountCmd(guild: Option<GuildId>, readOk: bool)

  function Execute(store: Store, d: Defaults, cmd: Command): (o: Outcome)
    ensures store.Keys <= o.store.Keys
    ensures !cmd.InitCmd? ==> o.store.Keys == store.Keys
    ensures cmd.InitCmd? ==> o.store.Keys <= store.Keys + (if cmd.guild.Some? then {cmd.guild.value} else {})
  {
    match cmd
    case InitCmd(guild, name, fetched, ok) => InitOutcome(store, d, guild, name, fetched, ok)
    case SetReactCountCmd(guild, n, ok) => SetReactCountOutcome(store, guild, n, ok)
    case GetReactCountCmd(guild, ok) => GetReactCountOutcome(store, guild, ok)
  }

  /** The table after a sequence of commands, applied in order. */
  function Replay(store: Store, d: Defaults, cmds: seq<Command>): Store
    decreases |cmds|
  {
    if cmds == [] then store else Replay(Execute(store, d, cmds[0]).store, d, cmds[1..])
  }

  /** An initialized guild stays initialized: no command removes a row. */
  lemma {:induction false} ReplayKeepsRows(store: Store, d: Defaults, cmds: seq<Command>)
    ensures store.Keys <= Replay(store, d, cmds).Keys
    decreases |cmds|
  {
    if cmds != [] {
      ReplayKeepsRows(Execute(store, d, cmds[0]).store, d, cmds[1..]);
    }
  }

  /** The command `cmd` is a successful `init` in guild `g`. */
  predicate Activates(cmd: Command, g: GuildId) {
    cmd.InitCmd? && cmd.guild == Some(g) && InitAccepted(cmd.guild, cmd.fetched, cmd.writeOk)
  }

  /** An uninitialized guild becomes initialized only through a successful `init`. */
  lemma {:induction false} OnlyInitActivates(store: Store, d: Defaults, cmds: seq<Command>, g: GuildId)
    requires g !in store && g in Replay(store, d, cmds)
    ensures exists i :: 0 <= i < |cmds| && Activates(cmds[i], g)
    decreases |cmds|
  {
    var next := Execute(store, d, cmds[0]).store;
    if g in next {
      assert Activates(cmds[0], g);
    } else {
      OnlyInitActivates(next, d, cmds[1..], g);
      var i :| 0 <= i < |cmds[1..]| && Activates(cmds[1..][i], g);
      assert Activates(cmds[i + 1], g);
    }
  }

  /** Every row names an archive channel and requires at least one reaction. */
  predicate WellFormed(store: Store) {
    forall g :: g in store ==> store[g].archiveChannel.Some? && store[g].reactCount >= 1
  }

  /** The platform rejects a `setreactcount` below 1 before the handler runs. */
  predicate PlatformValidated(cmd: Command) {
    cmd.SetReactCountCmd? ==> cmd.n >= 1
  }

  /**
   * Rows written only by the commands keep an archive channel and a positive
   * count, given a positive default count.
   */
  lemma {:induction false} ReplayKeepsWellFormed(store: Store, d: Defaults, cmds: seq<Command>)
    requires d.reactCount >= 1 && WellFormed(store)
    requires forall i :: 0 <= i < |cmds| ==> PlatformValidated(cmds[i])
    ensures WellFormed(Replay(store, d, cmds))
    decreases |cmds|
  {
    if cmds != [] {
      var next := Execute(store, d, cmds[0]).store;
      assert PlatformValidated(cmds[0]);
      assert WellFormed(next);
      assert forall i :: 0 <= i < |cmds[1..]| ==> cmds[1..][i] == cmds[i + 1];
      ReplayKeepsWellFormed(next, d, cmds[1..]);
    }
  }

  /** The `config` table, updated in place by the command handlers. */
  class ConfigTable {
    var rows: Store
    const defaults: Defaults

    constructor (rows: Store, defaults: Defaults)
      ensures this.rows == rows && this.defaults == defaults
    {
      this.rows := rows;
      this.defaults := defaults;
    }

    /** `initCommand`. */
    method InitCommand(guild: Option<GuildId>, optionName: string, fetched: Option<ArchiveChannel>, writeOk: bool)
      returns (replies: seq<Reply>)
      modifies this
      ensures rows == InitOutcome(old(rows), defaults, guild, optionName, fetched, writeOk).store
      ensures replies == InitOutcome(old(rows), defaults, guild, optionName, fetched, writeOk).replies
      ensures rows == Execute(old(rows), defaults, InitCmd(guild, optionName, fetched, writeOk)).store
    {
      if guild.None? {
        return [];
      }
      if fetched.None? {
        return [ChannelNotFound(optionName)];
      }
      var channel := fetched.value;
      if !channel.callerCanSend {
        return [NoSendPermission];
      }
      if !writeOk {
        return [InitFailed];
      }
      rows := Upsert(rows, defaults, guild.value, channel.id);
      replies := [Initialized(channel.id)];
    }

    /** `setReactCountCommand`; the platform guarantees `n >= 1`. */
    method SetReactCountCommand(guild: Option<GuildId>, n: int, writeOk: bool) returns (replies: seq<Reply>)
      requires n >= 1
      modifies this
      ensures rows == SetReactCountOutcome(old(rows), guild, n, writeOk).store
      ensures replies == SetReactCountOutcome(old(rows), guild, n, writeOk).replies
      ensures rows == Execute(old(rows), defaults, SetReactCountCmd(guild, n, writeOk)).store
    {
      if guild.None? {
        return [];
      }
      var g := guild.value;
      if !writeOk {
        return [FetchCountFailed];
      }
      var rowsModified := Changes(rows, g);
      rows := UpdateCount(rows, g, n);
      if rowsModified == 0 {
        return [NotInitialized];
      }
      replies := [ReactCountSet(n)];
    }

    /** `getReactCountCommand`. */
    method GetReactCountCommand(guild: Option<GuildId>, readOk: bool) returns (replies: seq<Reply>)
      ensures replies == GetReactCountOutcome(rows, guild, readOk).replies
    {
      if guild.None? {
        return [];
      }
      var count: Option<int> := None;
      replies := [];
      if readOk {
        count := GetReactCount(rows, guild.value);
      } else {
        replies := replies + [FetchCountFailed];
      }
      if count.None? {
        return replies + [NotInitialized];
      }
      replies := [ReactCountIs(count.value)];
    }
  }
}
