/**
 * The levelling store and the per-guild inputs the handlers read.
 *
 * The levelling table is a keyed store: `{guild}.{user}` holds a user's record in one
 * guild, `global.{user}` their record across guilds. Reads go through `get`, which can
 * reject; the keys whose read rejects during one handler run are the table's `faults`.
 */
module Store {
  import opened Wrappers

  type GuildId = string
  type UserId = string
  type RoleId = string
  type ChannelId = string

  /** A key of the levelling table. */
  datatype Key = Local(guild: GuildId, user: UserId) | Global(user: UserId)

  /** A stored progression record: the level and the exp gathered within it. */
  datatype Rec = Rec(levels: nat, exp: nat)

  /** What a store or settings read yields: a rejected read, no entry, or a value. */
  datatype Fetch<T> = Failed | Missing | Found(value: T)

  /** A reward rule of a guild's catalogue: the role is earned at `level`. */
  datatype Reward = Reward(level: nat, roleId: RoleId)

  /** The settings of one guild, as the settings table returns them. */
  datatype Settings = Settings(
    enabled: Fetch<bool>,            // `{guild}.leveling.enabled`
    levelChannel: Fetch<ChannelId>,  // `{guild}.leveling.channel`
    rewards: Fetch<seq<Reward>>,     // `{guild}.leveling.rewards`
    logChannel: Fetch<ChannelId>)    // `{guild}.logChannel`

  datatype ChannelKind = GuildText | OtherKind

  /** What the client has cached of a guild: its channels and its roles. */
  datatype GuildCache = GuildCache(channels: map<ChannelId, ChannelKind>, roles: set<RoleId>)

  /** The levelling flag is on only when `true` was read; a missing or rejected read counts as off. */
  predicate Enabled(f: Fetch<bool>) {
    f == Found(true)
  }

  /** A guild's reward catalogue; a missing or rejected read gives the empty one. */
  function Catalogue(f: Fetch<seq<Reward>>): (rules: seq<Reward>)
    ensures f.Found? ==> rules == f.value
    ensures !f.Found? ==> rules == []
  {
    if f.Found? then f.value else []
  }

  const ExpPerMessage: nat := 2
  const BaseExpForNewLevel: nat := 2 * 50

  /**
   * The exp that completes level `levels`: floor(100 * 1.25 * (levels + 1)).
   * The factor 1.25 is 5/4 and the product is exact, so the floor is integer division.
   */
  function Threshold(levels: nat): (t: nat)
    ensures t == BaseExpForNewLevel * 5 * (levels + 1) / 4
    ensures t >= 125
  {
    125 * (levels + 1)
  }

  lemma ThresholdOfFirstLevels()
    ensures Threshold(0) == 125 && Threshold(1) == 250 && Threshold(4) == 625
  {
  }

  lemma ThresholdStrictlyIncreasing(a: nat, b: nat)
    requires a < b
    ensures Threshold(a) < Threshold(b)
    ensures Threshold(b) - Threshold(a) == 125 * (b - a)
  {
  }

  /** What `get` on the table yields for key `k`. */
  function Lookup(records: map<Key, Rec>, faults: set<Key>, k: Key): (f: Fetch<Rec>)
    ensures f.Failed? <==> k in faults
    ensures f.Missing? <==> k !in faults && k !in records
    ensures f.Found? ==> k in records && f.value == records[k]
  {
    if k in faults then Failed
    else if k in records then Found(records[k])
    else Missing
  }

  /** The levelling table, updated in place by the handlers. */
  class LevelingTable {
    var records: map<Key, Rec>
    /** The keys whose read rejects for the duration of one handler run. */
    const faults: set<Key>

    constructor (records0: map<Key, Rec>, faults0: set<Key>)
      ensures records == records0 && faults == faults0
    {
      records := records0;
      faults := faults0;
    }

    method Get(k: Key) returns (f: Fetch<Rec>)
      ensures f.Failed? <==> k in faults
      ensures f.Found? <==> k !in faults && k in records
      ensures f.Found? ==> f.value == records[k]
    {
      f := Lookup(records, faults, k);
    }

    method Set(k: Key, r: Rec)
      modifies this`records
      ensures records == old(records)[k := r]
    {
      records := records[k := r];
    }
  }
}
