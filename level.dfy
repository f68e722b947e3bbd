/**
 * The level query: the levelling-flag check, the read of the user's local record (with
 * its conditional default write), the scan of the reward catalogue into held rewards and
 * the next reward, and the values shown.
 *
 * `Query` states the effect of one query; `Level.Run` performs it against a `LevelingTable`.
 */
module Level {
  import opened Wrappers
  import opened Store

  datatype QueryError = LevelingDisabled

  /**
   * The local record as the query reads it. A stored record gives both fields; a rejected
   * read gives {exp: 0, levels: 0}; a missing record gives exp 0 and NO level, because the
   * default object is written with the key `level` instead of `levels`.
   */
  datatype LevelRead = LevelRead(exp: nat, levels: Option<nat>)

  function ReadForQuery(f: Fetch<Rec>): (r: LevelRead)
    ensures f.Found? ==> r == LevelRead(f.value.exp, Some(f.value.levels))
    ensures f.Missing? ==> r == LevelRead(0, None)
    ensures f.Failed? ==> r == LevelRead(0, Some(0))
  {
    match f
    case Found(rec) => LevelRead(rec.exp, Some(rec.levels))
    case Missing => LevelRead(0, None)
    case Failed => LevelRead(0, Some(0))
  }

  /** `!exp && !levels`: both are 0 or absent, and the query writes the default record. */
  predicate WritesDefault(r: LevelRead) {
    r.exp == 0 && r.levels.GetOr(0) == 0
  }

  /** `levels < level`: the rule is not reached yet. An absent level compares false. */
  predicate Locked(levels: Option<nat>, rule: Reward) {
    levels.Some? && levels.value < rule.level
  }

  /** The rewards shown as held and the upcoming one. */
  datatype RewardScan = RewardScan(held: seq<Reward>, next: Option<Reward>)

  /** The scan of the catalogue in order: held until the first locked rule, which is the next reward. */
  function Scan(levels: Option<nat>, rules: seq<Reward>): RewardScan
  {
    if rules == [] then RewardScan([], None)
    else if Locked(levels, rules[0]) then RewardScan([], Some(rules[0]))
    else
      var rest := Scan(levels, rules[1..]);
      RewardScan([rules[0]] + rest.held, rest.next)
  }

  /** What the command shows: the level, the exp, the exp the level needs, the next level, the rewards. */
  datatype LevelView = LevelView(level: nat, exp: nat, expNeeded: nat, nextLevel: nat,
                                 held: seq<Reward>, next: Option<Reward>)

  datatype QueryEffects = QueryEffects(records: map<Key, Rec>, reply: Result<LevelView, QueryError>)

  /** The local record of `user` in `guild` as the query reads it. */
  function QueryRead(records: map<Key, Rec>, faults: set<Key>, guild: GuildId, user: UserId): LevelRead {
    ReadForQuery(Lookup(records, faults, Local(guild, user)))
  }

  /** The effect of one level query for `user` in `guild`. */
  function Query(records: map<Key, Rec>, faults: set<Key>, s: Settings, guild: GuildId, user: UserId): QueryEffects
  {
    if !Enabled(s.enabled) then QueryEffects(records, Err(LevelingDisabled))
    else
      var rd := QueryRead(records, faults, guild, user);
      var records' := if WritesDefault(rd) then records[Local(guild, user) := Rec(0, 0)] else records;
      var scan := Scan(rd.levels, Catalogue(s.rewards));
      var shown := rd.levels.GetOr(0);
      QueryEffects(records', Ok(LevelView(shown, rd.exp, Threshold(shown), shown + 1, scan.held, scan.next)))
  }

  /**
   * The reward loop: push each reached rule, and at the first locked rule record it as
   * the next reward and stop. (The source also tests `if (nextReward) break` before that
   * assignment; the loop stops as soon as nextReward is set, so that test never fires.)
   */
  method ScanRewards(levels: Option<nat>, rules: seq<Reward>) returns (held: seq<Reward>, next: Option<Reward>)
    ensures |held| <= |rules| && held == rules[..|held|]
    ensures forall i :: 0 <= i < |held| ==> !Locked(levels, rules[i])
    ensures |held| < |rules| ==> next == Some(rules[|held|]) && Locked(levels, rules[|held|])
    ensures |held| == |rules| ==> next == None
    ensures RewardScan(held, next) == Scan(levels, rules)
  {
    held, next := [], None;
    var i := 0;
    while i < |rules|
      invariant i <= |rules| && held == rules[..i]
      invariant forall j :: 0 <= j < i ==> !Locked(levels, rules[j])
      invariant next == None
    {
      var rule := rules[i];
      if Locked(levels, rule) {
        next := Some(rule);
        break;
      }
      held := held + [rule];
      i := i + 1;
    }
    ScanDeterminedByFirstLocked(levels, rules, i);
  }

  /** Any index whose earlier rules are reached and whose own rule is locked (or the end) fixes the scan. */
  lemma {:induction false} ScanDeterminedByFirstLocked(levels: Option<nat>, rules: seq<Reward>, k: nat)
    requires k <= |rules|
    requires forall j :: 0 <= j < k ==> !Locked(levels, rules[j])
    requires k < |rules| ==> Locked(levels, rules[k])
    ensures Scan(levels, rules) == RewardScan(rules[..k], if k < |rules| then Some(rules[k]) else None)
  {
    if k > 0 {
      ScanDeterminedByFirstLocked(levels, rules[1..], k - 1);
      assert rules[..k] == [rules[0]] + rules[1..][..k - 1];
    }
  }

  /** One level query for `user` in `guild` against `table`. */
  method Run(table: LevelingTable, s: Settings, guild: GuildId, user: UserId) returns (reply: Result<LevelView, QueryError>)
    modifies table`records
    ensures var q := Query(old(table.records), table.faults, s, guild, user);
      table.records == q.records && reply == q.reply
  {
    if !Enabled(s.enabled) {
      return Err(LevelingDisabled);
    }
    var key := Local(guild, user);
    var read := table.Get(key);
    var exp: nat, levels: Option<nat>;
    match read {
      case Found(rec) => exp, levels := rec.exp, Some(rec.levels);
      case Missing => exp, levels := 0, None;
      case Failed => exp, levels := 0, Some(0);
    }

    if exp == 0 && levels.GetOr(0) == 0 {
      table.Set(key, Rec(0, 0));
    }

    var rewards, nextReward := ScanRewards(levels, Catalogue(s.rewards));

    var shown := levels.GetOr(0);
    var expUntilLevelup := Threshold(shown);
    reply := Ok(LevelView(shown, exp, expUntilLevelup, shown + 1, rewards, nextReward));
  }

  // Properties of the scan

  /** The held rewards are the longest prefix of reached rules; the next reward is the rule after it. */
  lemma {:induction false} ScanIsLongestUnlockedPrefix(levels: Option<nat>, rules: seq<Reward>)
    ensures var r := Scan(levels, rules); var k := |r.held|;
      && k <= |rules| && r.held == rules[..k]
      && (forall i :: 0 <= i < k ==> !Locked(levels, rules[i]))
      && (k < |rules| ==> Locked(levels, rules[k]) && r.next == Some(rules[k]))
      && (k == |rules| ==> r.next == None)
  {
    if rules != [] && !Locked(levels, rules[0]) {
      ScanIsLongestUnlockedPrefix(levels, rules[1..]);
      var rest := Scan(levels, rules[1..]);
      assert rules[..|rest.held| + 1] == [rules[0]] + rules[1..][..|rest.held|];
    }
  }

  /** There is no next reward exactly when no rule is locked, that is when all were held. */
  lemma ScanNextNoneIff(levels: Option<nat>, rules: seq<Reward>)
    ensures Scan(levels, rules).next == None <==> forall i :: 0 <= i < |rules| ==> !Locked(levels, rules[i])
    ensures Scan(levels, rules).next == None <==> Scan(levels, rules).held == rules
  {
    ScanIsLongestUnlockedPrefix(levels, rules);
  }

  /** Rules after the first locked one are never held, whatever their level. */
  lemma ScanStopsAtFirstLocked(levels: Option<nat>, rules: seq<Reward>, i: nat)
    requires i < |rules| && Locked(levels, rules[i])
    ensures |Scan(levels, rules).held| <= i
  {
    ScanIsLongestUnlockedPrefix(levels, rules);
  }

  /** Without a level every rule is held and there is no next reward. */
  lemma ScanWithoutLevelHoldsAll(rules: seq<Reward>)
    ensures Scan(None, rules) == RewardScan(rules, None)
  {
    ScanIsLongestUnlockedPrefix(None, rules);
  }

  // Properties of one query

  /** A disabled, missing or unreadable flag gives the disabled error and writes nothing. */
  lemma DisabledQuery(records: map<Key, Rec>, faults: set<Key>, s: Settings, guild: GuildId, user: UserId)
    requires !Enabled(s.enabled)
    ensures Query(records, faults, s, guild, user) == QueryEffects(records, Err(LevelingDisabled))
  {
  }

  /** The shown values: level `levels ?? 0`, next level one above, and the exp that level needs. */
  lemma QueryDisplay(records: map<Key, Rec>, faults: set<Key>, s: Settings, guild: GuildId, user: UserId)
    requires Enabled(s.enabled)
    ensures var q := Query(records, faults, s, guild, user);
      var rd := QueryRead(records, faults, guild, user);
      && q.reply.Ok?
      && q.reply.value.level == rd.levels.GetOr(0)
      && q.reply.value.exp == rd.exp
      && q.reply.value.nextLevel == q.reply.value.level + 1
      && q.reply.value.expNeeded == 125 * (q.reply.value.level + 1)
      && RewardScan(q.reply.value.held, q.reply.value.next) == Scan(rd.levels, Catalogue(s.rewards))
  {
  }

  /** The query writes {levels: 0, exp: 0} to the local key exactly when exp and levels are both falsy. */
  lemma QueryDefaultWrite(records: map<Key, Rec>, faults: set<Key>, s: Settings, guild: GuildId, user: UserId)
    requires Enabled(s.enabled)
    ensures var q := Query(records, faults, s, guild, user);
      var rd := QueryRead(records, faults, guild, user);
      q.records == if WritesDefault(rd) then records[Local(guild, user) := Rec(0, 0)] else records
  {
  }

  /**
   * The store changes only for a missing record, or for a rejected read over a record
   * that is not already {0, 0}: the default write then erases the user's progress.
   */
  lemma QueryChangesStoreIff(records: map<Key, Rec>, faults: set<Key>, s: Settings, guild: GuildId, user: UserId)
    ensures var k := Local(guild, user);
      Query(records, faults, s, guild, user).records != records <==>
        Enabled(s.enabled) && (k !in records || (k in faults && records[k] != Rec(0, 0)))
  {
    var k := Local(guild, user);
    if Enabled(s.enabled) && k in records && k !in faults {
      assert records[k := records[k]] == records;
    }
  }

  /** A record that exists but cannot be read is reset to {0, 0}. */
  lemma FailedReadResetsRecord(records: map<Key, Rec>, faults: set<Key>, s: Settings, guild: GuildId, user: UserId)
    requires Enabled(s.enabled) && Local(guild, user) in faults
    ensures Query(records, faults, s, guild, user).records == records[Local(guild, user) := Rec(0, 0)]
  {
  }

  /** For a user with no record: exp 0, level 0 shown, every rule held, no next reward. */
  lemma MissingRecordHoldsEveryReward(records: map<Key, Rec>, faults: set<Key>, s: Settings, guild: GuildId, user: UserId)
    requires Enabled(s.enabled) && Lookup(records, faults, Local(guild, user)).Missing?
    ensures var q := Query(records, faults, s, guild, user);
      && q.reply.Ok? && q.reply.value.level == 0 && q.reply.value.exp == 0
      && q.reply.value.held == Catalogue(s.rewards) && q.reply.value.next == None
      && q.records == records[Local(guild, user) := Rec(0, 0)]
  {
    ScanWithoutLevelHoldsAll(Catalogue(s.rewards));
  }

  /** A missing or rejected rewards setting gives no held rewards and no next reward. */
  lemma NoCatalogueNoRewards(records: map<Key, Rec>, faults: set<Key>, s: Settings, guild: GuildId, user: UserId)
    requires Enabled(s.enabled) && !s.rewards.Found?
    ensures var q := Query(records, faults, s, guild, user);
      q.reply.Ok? && q.reply.value.held == [] && q.reply.value.next == None
  {
  }
}
