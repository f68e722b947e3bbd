/**
 * The per-message levelling handler: gating, the local and global reads, the two
 * write paths, the level-up notice and the reward role pass.
 *
 * `Handle` states the effect of one run on the store, the notice and the role
 * actions; `MessageCreate.Run` performs the run step by step against a `LevelingTable`.
 */
module MessageCreate {
  import opened Wrappers
  import opened Store

  /** The only guild in which messages earn exp. */
  const HomeGuild: GuildId := "903852579837059113"

  datatype Message = Message(authorId: UserId, authorIsBot: bool, guildId: GuildId)

  /** The level-up message: its channel, the user, the level reached and the exp to the next one. */
  datatype LevelUpNotice = LevelUpNotice(channel: ChannelId, user: UserId, newLevel: nat, expNeeded: nat)

  /** A request to the platform to grant or revoke one role of the author. */
  datatype RoleAction = Add(roleId: RoleId) | Remove(roleId: RoleId)

  /** Everything one run leaves behind. */
  datatype Effects = Effects(records: map<Key, Rec>, notice: Option<LevelUpNotice>, actions: seq<RoleAction>)

  /** The global record as read: missing or rejected reads give {levels: 0, exp: 0}. */
  function GlobalOrDefault(f: Fetch<Rec>): (r: Rec)
    ensures f.Found? ==> r == f.value
    ensures !f.Found? ==> r == Rec(0, 0)
  {
    if f.Found? then f.value else Rec(0, 0)
  }

  /**
   * The local record as read: a rejected read gives {0, 0}; a missing record makes the
   * destructuring of `null` throw, which ends the run (None).
   */
  function LocalOrAbort(f: Fetch<Rec>): (r: Option<Rec>)
    ensures r == None <==> f.Missing?
    ensures f.Found? ==> r == Some(f.value)
    ensures f.Failed? ==> r == Some(Rec(0, 0))
  {
    match f
    case Failed => Some(Rec(0, 0))
    case Missing => None
    case Found(r) => Some(r)
  }

  /** True when the old local exp is enough for a level-up: `exp >= expUntilLevelup - 1`. */
  predicate LevelsUp(loc: Rec) {
    loc.exp >= Threshold(loc.levels) - 1
  }

  /** The local exp left after a level-up: `exp - expUntilLevelup`, clamped at 0. */
  function Leftover(loc: Rec): (n: nat)
    ensures n == if loc.exp < Threshold(loc.levels) then 0 else loc.exp - Threshold(loc.levels)
    ensures n + Threshold(loc.levels) >= loc.exp
  {
    if loc.exp - Threshold(loc.levels) < 0 then 0 else loc.exp - Threshold(loc.levels)
  }

  /**
   * The channel the notice goes to. A rejected read gives null and the run stops;
   * a missing setting is `String(null)`, the non-empty text "null"; an empty id stops the run.
   */
  function NoticeChannel(f: Fetch<ChannelId>): (c: Option<ChannelId>)
    ensures f.Failed? ==> c == None
    ensures f.Missing? ==> c == Some("null")
    ensures f.Found? ==> (c == None <==> f.value == "")
    ensures f.Found? && f.value != "" ==> c == Some(f.value)
    ensures c.Some? ==> c.value != ""
  {
    match f
    case Failed => None
    case Missing => Some("null")
    case Found(id) => if id == "" then None else Some(id)
  }

  /** The action for one rule, decided on the author's level before this message. */
  function ActionFor(levels: nat, rule: Reward): (a: RoleAction)
    ensures a.roleId == rule.roleId
    ensures a.Add? <==> levels >= rule.level
  {
    if levels >= rule.level then Add(rule.roleId) else Remove(rule.roleId)
  }

  /**
   * The index of the first rule whose role is not in the guild's role cache, or the
   * length of the catalogue when every role is there.
   */
  function FirstUnknownRole(rules: seq<Reward>, roles: set<RoleId>): (k: nat)
    ensures k <= |rules|
    ensures forall i :: 0 <= i < k ==> rules[i].roleId in roles
    ensures k < |rules| ==> rules[k].roleId !in roles
  {
    if rules == [] || rules[0].roleId !in roles then 0
    else 1 + FirstUnknownRole(rules[1..], roles)
  }

  /**
   * The role requests of the reward pass: one per rule, in catalogue order, up to the
   * first rule whose role is unknown, where the platform call rejects and the run ends.
   */
  function RewardPass(levels: nat, rules: seq<Reward>, roles: set<RoleId>): seq<RoleAction>
  {
    var k := FirstUnknownRole(rules, roles);
    seq(k, i requires 0 <= i < k => ActionFor(levels, rules[i]))
  }

  /** What the level-up path sends: the notice and the role requests. */
  datatype Announcement = Announcement(notice: Option<LevelUpNotice>, actions: seq<RoleAction>)

  /** The level-up tail of a run for an author whose old level was `levels`. */
  function LevelUpTail(levels: nat, s: Settings, c: GuildCache, m: Message): Announcement
  {
    match NoticeChannel(s.levelChannel)
    case None => Announcement(None, [])
    case Some(id) =>
      if id !in c.channels then Announcement(None, [])
      else
        var notice := LevelUpNotice(id, m.authorId, levels + 1, Threshold(levels + 1));
        Announcement(Some(notice), RewardPass(levels, Catalogue(s.rewards), c.roles))
  }

  /**
   * The store writes once the reads have given the local record `loc` and the global one
   * `glob`. Below the level-up mark the global record plus 2 goes to BOTH keys; otherwise the
   * local key moves up one level, and the global key is rewritten from the local values
   * when the old local exp also reaches the global level's mark.
   */
  function Written(records: map<Key, Rec>, loc: Rec, glob: Rec, m: Message): map<Key, Rec>
  {
    var local, global := Local(m.guildId, m.authorId), Global(m.authorId);
    if !LevelsUp(loc) then
      var g := Rec(glob.levels, glob.exp + ExpPerMessage);
      records[global := g][local := g]
    else
      var withLocal := records[local := Rec(loc.levels + 1, Leftover(loc))];
      if loc.exp >= Threshold(glob.levels) - 1
      then withLocal[global := Rec(loc.levels + 1, Leftover(loc) + 1)]
      else withLocal
  }

  /** The effects of a run once the reads have given `loc` and `glob`. */
  function Progress(records: map<Key, Rec>, loc: Rec, glob: Rec, s: Settings, c: GuildCache, m: Message): Effects
  {
    var written := Written(records, loc, glob, m);
    if !LevelsUp(loc) then Effects(written, None, [])
    else
      var tail := LevelUpTail(loc.levels, s, c, m);
      Effects(written, tail.notice, tail.actions)
  }

  /** True when the message passes the bot, guild and levelling-flag gates. */
  predicate Admitted(s: Settings, m: Message) {
    !m.authorIsBot && m.guildId == HomeGuild && Enabled(s.enabled)
  }

  /** The author's local record as the run reads it; None when the run ends at the read. */
  function LocalRecord(records: map<Key, Rec>, faults: set<Key>, m: Message): Option<Rec> {
    LocalOrAbort(Lookup(records, faults, Local(m.guildId, m.authorId)))
  }

  /** The author's global record as the run reads it. */
  function GlobalRecord(records: map<Key, Rec>, faults: set<Key>, m: Message): Rec {
    GlobalOrDefault(Lookup(records, faults, Global(m.authorId)))
  }

  /** The effect of one run of the handler for message `m`. */
  function Handle(records: map<Key, Rec>, faults: set<Key>, s: Settings, c: GuildCache, m: Message): Effects
  {
    if !Admitted(s, m) then Effects(records, None, [])
    else
      match LocalRecord(records, faults, m)
      case None => Effects(records, None, [])
      case Some(loc) => Progress(records, loc, GlobalRecord(records, faults, m), s, c, m)
  }

  /** The reward loop: one role request per rule, stopping at the first unknown role. */
  method SyncRewards(levels: nat, rules: seq<Reward>, roles: set<RoleId>) returns (actions: seq<RoleAction>)
    ensures |actions| == FirstUnknownRole(rules, roles)
    ensures forall i :: 0 <= i < |actions| ==> actions[i] == ActionFor(levels, rules[i])
    ensures actions == RewardPass(levels, rules, roles)
  {
    actions := [];
    var i := 0;
    while i < |rules|
      invariant i <= |rules|
      invariant |actions| == i
      invariant forall j :: 0 <= j < i ==> rules[j].roleId in roles
      invariant forall j :: 0 <= j < i ==> actions[j] == ActionFor(levels, rules[j])
    {
      var rule := rules[i];
      if rule.roleId !in roles {
        break;
      }
      if levels >= rule.level {
        actions := actions + [Add(rule.roleId)];
      } else {
        actions := actions + [Remove(rule.roleId)];
      }
      i := i + 1;
    }
    FirstUnknownRoleIsFirst(rules, roles, i);
  }

  /** Any index whose earlier roles are known and whose own role is unknown (or the end) is the first. */
  lemma {:induction false} FirstUnknownRoleIsFirst(rules: seq<Reward>, roles: set<RoleId>, k: nat)
    requires k <= |rules|
    requires forall j :: 0 <= j < k ==> rules[j].roleId in roles
    requires k < |rules| ==> rules[k].roleId !in roles
    ensures FirstUnknownRole(rules, roles) == k
  {
    if k > 0 {
      FirstUnknownRoleIsFirst(rules[1..], roles, k - 1);
    }
  }

  /** One run of the handler for message `m` against `table`. */
  method Run(table: LevelingTable, s: Settings, c: GuildCache, m: Message)
    returns (notice: Option<LevelUpNotice>, actions: seq<RoleAction>)
    modifies table`records
    ensures var e := Handle(old(table.records), table.faults, s, c, m);
      table.records == e.records && notice == e.notice && actions == e.actions
  {
    notice, actions := None, [];
    if m.authorIsBot || m.guildId != HomeGuild {
      return;
    }
    if !Enabled(s.enabled) {
      return;
    }
    var local, global := Local(m.guildId, m.authorId), Global(m.authorId);

    var localRead := table.Get(local);
    if localRead.Missing? {
      return;
    }
    var levels, exp := 0, 0;
    if localRead.Found? {
      levels, exp := localRead.value.levels, localRead.value.exp;
    }

    assert LocalRecord(table.records, table.faults, m) == Some(Rec(levels, exp));

    var globalRead := table.Get(global);
    var levelsGlobal, expGlobal := 0, 0;
    if globalRead.Found? {
      levelsGlobal, expGlobal := globalRead.value.levels, globalRead.value.exp;
    }
    assert GlobalRecord(table.records, table.faults, m) == Rec(levelsGlobal, expGlobal);

    var leveledUp := WriteRecords(table, levels, exp, levelsGlobal, expGlobal, m);
    if !leveledUp {
      return;
    }
    notice, actions := NotifyAndSync(levels, s, c, m);
  }

  /** The store writes of a run, given what the two reads produced; reports whether it was a level-up. */
  method WriteRecords(table: LevelingTable, levels: nat, exp: nat, levelsGlobal: nat, expGlobal: nat, m: Message)
    returns (leveledUp: bool)
    modifies table`records
    ensures leveledUp == LevelsUp(Rec(levels, exp))
    ensures table.records == Written(old(table.records), Rec(levels, exp), Rec(levelsGlobal, expGlobal), m)
  {
    var local, global := Local(m.guildId, m.authorId), Global(m.authorId);
    var expUntilLevelup := Threshold(levels);
    var expUntilLevelupGlobal := Threshold(levelsGlobal);

    var newLevelData := Rec(levels, exp + ExpPerMessage);
    var newLevelDataGlobal := Rec(levelsGlobal, expGlobal + ExpPerMessage);

    if !(exp >= expUntilLevelup - 1) {
      table.Set(global, newLevelDataGlobal);
      table.Set(local, newLevelDataGlobal);
      return false;
    }

    var leftOverExp := exp - expUntilLevelup;
    if leftOverExp < 0 {
      leftOverExp := 0;
    }
    newLevelData := newLevelData.(levels := levels + 1, exp := leftOverExp);
    table.Set(local, newLevelData);

    if exp >= expUntilLevelupGlobal - 1 {
      var leftOverExpGlobal := exp - expUntilLevelup;
      if leftOverExpGlobal < 0 {
        leftOverExpGlobal := 0;
      }
      newLevelDataGlobal := newLevelDataGlobal.(levels := levels + 1, exp := leftOverExpGlobal + 1);
      table.Set(global, newLevelDataGlobal);
    }
    return true;
  }

  /** The level-up tail of a run: the notice to the level channel, then the reward loop. */
  method NotifyAndSync(levels: nat, s: Settings, c: GuildCache, m: Message)
    returns (notice: Option<LevelUpNotice>, actions: seq<RoleAction>)
    ensures notice.Some? ==> notice.value.newLevel == levels + 1 && notice.value.expNeeded == Threshold(levels + 1)
    ensures notice.None? ==> actions == []
    ensures Announcement(notice, actions) == LevelUpTail(levels, s, c, m)
  {
    notice, actions := None, [];
    var levelChannelId := NoticeChannel(s.levelChannel);
    if levelChannelId.None? {
      return;
    }
    if levelChannelId.value !in c.channels {
      return;
    }
    var expUntilNextLevelup := Threshold(levels + 1);
    notice := Some(LevelUpNotice(levelChannelId.value, m.authorId, levels + 1, expUntilNextLevelup));

    var levelRewards := Catalogue(s.rewards);
    actions := SyncRewards(levels, levelRewards, c.roles);
  }

  // Properties of one run

  /** Bots, other guilds, a disabled or unreadable flag and a missing local record change nothing. */
  lemma GatedRunChangesNothing(records: map<Key, Rec>, faults: set<Key>, s: Settings, c: GuildCache, m: Message)
    requires m.authorIsBot || m.guildId != HomeGuild || !Enabled(s.enabled)
          || Lookup(records, faults, Local(m.guildId, m.authorId)).Missing?
    ensures Handle(records, faults, s, c, m) == Effects(records, None, [])
  {
  }

  /** A run writes at most the author's local and global keys. */
  lemma RunTouchesOnlyAuthorKeys(records: map<Key, Rec>, faults: set<Key>, s: Settings, c: GuildCache, m: Message, k: Key)
    requires k != Local(m.guildId, m.authorId) && k != Global(m.authorId)
    ensures var e := Handle(records, faults, s, c, m);
      (k in e.records <==> k in records) && (k in records ==> e.records[k] == records[k])
  {
  }

  /**
   * Below the level-up mark, the global record gains 2 exp and the SAME record is written
   * to the local key as well (the global values overwrite the local ones). No notice follows.
   */
  lemma NoLevelUpCopiesGlobalIntoLocal(records: map<Key, Rec>, faults: set<Key>, s: Settings, c: GuildCache, m: Message)
    requires Admitted(s, m) && LocalRecord(records, faults, m).Some?
    requires !LevelsUp(LocalRecord(records, faults, m).value)
    ensures var e := Handle(records, faults, s, c, m);
      var g := GlobalRecord(records, faults, m);
      var written := Rec(g.levels, g.exp + 2);
      && e.records == records[Global(m.authorId) := written][Local(m.guildId, m.authorId) := written]
      && e.notice == None && e.actions == []
  {
  }

  /** On the level-up path the local level rises by exactly one and the 2 exp of the message are not added. */
  lemma LevelUpLocalRecord(records: map<Key, Rec>, faults: set<Key>, s: Settings, c: GuildCache, m: Message)
    requires Admitted(s, m) && LocalRecord(records, faults, m).Some?
    requires LevelsUp(LocalRecord(records, faults, m).value)
    ensures var e := Handle(records, faults, s, c, m);
      var loc := LocalRecord(records, faults, m).value;
      var local := Local(m.guildId, m.authorId);
      && local in e.records
      && e.records[local].levels == loc.levels + 1
      && e.records[local].exp == (if loc.exp < Threshold(loc.levels) then 0 else loc.exp - Threshold(loc.levels))
  {
  }

  /**
   * On the level-up path the global record is rewritten from the LOCAL values, one above
   * the old local level with the local leftover plus one, exactly when the old local exp
   * reaches the global level's mark; otherwise the global key is left as it was.
   */
  lemma LevelUpGlobalRecord(records: map<Key, Rec>, faults: set<Key>, s: Settings, c: GuildCache, m: Message)
    requires Admitted(s, m) && LocalRecord(records, faults, m).Some?
    requires LevelsUp(LocalRecord(records, faults, m).value)
    ensures var e := Handle(records, faults, s, c, m);
      var loc := LocalRecord(records, faults, m).value;
      var g := GlobalRecord(records, faults, m);
      var global := Global(m.authorId);
      && (loc.exp >= Threshold(g.levels) - 1 ==>
            global in e.records && e.records[global] == Rec(loc.levels + 1, Leftover(loc) + 1))
      && (loc.exp < Threshold(g.levels) - 1 ==>
            (global in e.records <==> global in records)
            && (global in records ==> e.records[global] == records[global]))
  {
  }

  /**
   * A notice is sent exactly on the level-up path with a usable, cached channel; it names
   * the level reached and the exp that level needs, and only then does the reward pass run,
   * on the level held BEFORE the message.
   */
  lemma NoticeAndRewardPass(records: map<Key, Rec>, faults: set<Key>, s: Settings, c: GuildCache, m: Message)
    ensures var e := Handle(records, faults, s, c, m);
      var loc := LocalRecord(records, faults, m);
      && (e.notice.Some? <==>
            Admitted(s, m) && loc.Some? && LevelsUp(loc.value)
            && NoticeChannel(s.levelChannel).Some? && NoticeChannel(s.levelChannel).value in c.channels)
      && (e.notice.None? ==> e.actions == [])
      && (e.notice.Some? ==>
            && e.notice.value == LevelUpNotice(NoticeChannel(s.levelChannel).value, m.authorId,
                                               loc.value.levels + 1, Threshold(loc.value.levels + 1))
            && e.actions == RewardPass(loc.value.levels, Catalogue(s.rewards), c.roles))
  {
  }

  /** With every role cached, the pass emits exactly one request per rule, in catalogue order. */
  lemma RewardPassAllRolesKnown(levels: nat, rules: seq<Reward>, roles: set<RoleId>)
    requires forall i :: 0 <= i < |rules| ==> rules[i].roleId in roles
    ensures |RewardPass(levels, rules, roles)| == |rules|
    ensures forall i :: 0 <= i < |rules| ==>
      RewardPass(levels, rules, roles)[i] == (if levels >= rules[i].level then Add(rules[i].roleId) else Remove(rules[i].roleId))
  {
    FirstUnknownRoleIsFirst(rules, roles, |rules|);
  }

  /**
   * The pass judges rules on the level before the level-up: a rule for exactly the level
   * just reached has its role removed, not added.
   */
  lemma NewlyReachedRewardIsRemoved(levels: nat, rules: seq<Reward>, roles: set<RoleId>, i: nat)
    requires forall j :: 0 <= j < |rules| ==> rules[j].roleId in roles
    requires i < |rules| && rules[i].level == levels + 1
    ensures RewardPass(levels, rules, roles)[i] == Remove(rules[i].roleId)
  {
    RewardPassAllRolesKnown(levels, rules, roles);
  }

  /** A missing or rejected rewards setting makes the pass empty. */
  lemma NoCatalogueNoActions(levels: nat, f: Fetch<seq<Reward>>, roles: set<RoleId>)
    requires !f.Found?
    ensures RewardPass(levels, Catalogue(f), roles) == []
  {
  }
}
