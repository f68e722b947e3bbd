/**
 * The intended progression rule, `advance(record, gain)`: add the gain, and on reaching
 * the level's threshold move up one level keeping the remainder. It is the reference
 * against which the lemmas at the end measure what the message handler actually writes.
 */
module Progression {
  import opened Wrappers
  import opened Store
  import MessageCreate

  /** The exp needed to reach level `levels` from level 0: the thresholds of all lower levels. */
  function Cumulative(levels: nat): nat {
    if levels == 0 then 0 else Cumulative(levels - 1) + Threshold(levels - 1)
  }

  /** All exp a record stands for, counted from level 0. */
  function TotalExp(r: Rec): nat {
    Cumulative(r.levels) + r.exp
  }

  lemma {:induction false} CumulativeClosedForm(levels: nat)
    ensures 2 * Cumulative(levels) == 125 * levels * (levels + 1)
  {
    if levels > 0 {
      var n := levels - 1;
      CumulativeClosedForm(n);
      assert 2 * Cumulative(levels) == 125 * n * (n + 1) + 250 * (n + 1);
      assert 125 * n * (n + 1) + 250 * (n + 1) == 125 * (n + 1) * (n + 2) by {
        assert n * (n + 1) + 2 * (n + 1) == (n + 1) * (n + 2);
      }
    }
  }

  datatype Advanced = Advanced(rec: Rec, leveledUp: bool)

  /**
   * The intended rule. It never loses or invents exp, moves up at most one level, and
   * levels up exactly when the new exp reaches the current level's threshold.
   */
  function Advance(r: Rec, gain: nat): (a: Advanced)
    ensures TotalExp(a.rec) == TotalExp(r) + gain
    ensures a.leveledUp <==> r.exp + gain >= Threshold(r.levels)
    ensures a.rec.levels == if a.leveledUp then r.levels + 1 else r.levels
  {
    if r.exp + gain < Threshold(r.levels) then Advanced(Rec(r.levels, r.exp + gain), false)
    else Advanced(Rec(r.levels + 1, r.exp + gain - Threshold(r.levels)), true)
  }

  /** A record within its level stays within its level, for any gain up to the next threshold. */
  lemma AdvanceKeepsExpBelowThreshold(r: Rec, gain: nat)
    requires r.exp < Threshold(r.levels)
    requires 0 < gain <= Threshold(r.levels + 1)
    ensures Advance(r, gain).rec.exp < Threshold(Advance(r, gain).rec.levels)
  {
  }

  lemma AdvanceExamples()
    ensures Advance(Rec(0, 0), 2) == Advanced(Rec(0, 2), false)
    ensures Advance(Rec(0, 123), 2) == Advanced(Rec(1, 0), true)
    ensures Advance(Rec(0, 124), 10) == Advanced(Rec(1, 9), true)
  {
  }

  // Where the handler as written departs from the intended rule

  /**
   * On the level-up path the local record loses the message's exp: it stands for less
   * total exp than the intended rule would give, and for no more than the old record plus one.
   */
  lemma LevelUpLosesMessageExp(loc: Rec)
    requires MessageCreate.LevelsUp(loc)
    ensures var written := Rec(loc.levels + 1, MessageCreate.Leftover(loc));
      && TotalExp(written) < TotalExp(Advance(loc, ExpPerMessage).rec)
      && TotalExp(written) <= TotalExp(loc) + 1
      && Advance(loc, ExpPerMessage).leveledUp
  {
  }

  /**
   * Local and global both at `loc`, two short of the threshold: the intended rule levels up,
   * while the handler takes the no-level-up path, sends no notice and stores under the local
   * key an exp equal to the whole threshold, so the bound exp < threshold(level) is broken.
   */
  lemma LevelUpComesOneMessageLate(s: Settings, c: GuildCache, m: MessageCreate.Message, loc: Rec)
    requires MessageCreate.Admitted(s, m)
    requires loc.exp == Threshold(loc.levels) - 2
    ensures var local, global := Local(m.guildId, m.authorId), Global(m.authorId);
      var e := MessageCreate.Handle(map[local := loc, global := loc], {}, s, c, m);
      && Advance(loc, ExpPerMessage).leveledUp
      && local in e.records && e.records[local] == Rec(loc.levels, Threshold(loc.levels))
      && !(e.records[local].exp < Threshold(e.records[local].levels))
      && e.notice == None
  {
    var local, global := Local(m.guildId, m.authorId), Global(m.authorId);
    MessageCreate.NoLevelUpCopiesGlobalIntoLocal(map[local := loc, global := loc], {}, s, c, m);
  }

  /**
   * Below the level-up mark the handler stores the global record plus 2 under the local
   * key; that matches the intended local result exactly when the global record as read
   * equals the local one.
   */
  lemma NoLevelUpMatchesAdvanceIffScopesAgree(records: map<Key, Rec>, faults: set<Key>, s: Settings, c: GuildCache,
                                              m: MessageCreate.Message, loc: Rec)
    requires MessageCreate.Admitted(s, m)
    requires MessageCreate.LocalRecord(records, faults, m) == Some(loc)
    requires loc.exp < Threshold(loc.levels) - 2
    ensures var e := MessageCreate.Handle(records, faults, s, c, m);
      var local := Local(m.guildId, m.authorId);
      local in e.records
      && (e.records[local] == Advance(loc, ExpPerMessage).rec <==> MessageCreate.GlobalRecord(records, faults, m) == loc)
  {
    MessageCreate.NoLevelUpCopiesGlobalIntoLocal(records, faults, s, c, m);
  }

  /**
   * One rejected global read drops the user's level: with the same record `r` below the
   * level-up mark at both keys and the global read rejected, both keys become {0, 2},
   * so any level above 0 is lost from both scopes.
   */
  lemma RejectedGlobalReadResetsLevel(s: Settings, c: GuildCache, m: MessageCreate.Message, r: Rec)
    requires MessageCreate.Admitted(s, m)
    requires !MessageCreate.LevelsUp(r)
    ensures var local, global := Local(m.guildId, m.authorId), Global(m.authorId);
      var e := MessageCreate.Handle(map[local := r, global := r], {global}, s, c, m);
      && e.records == map[local := Rec(0, 2), global := Rec(0, 2)]
      && (r.levels > 0 ==> e.records[local].levels < r.levels && e.records[global].levels < r.levels)
  {
    var local, global := Local(m.guildId, m.authorId), Global(m.authorId);
    MessageCreate.NoLevelUpCopiesGlobalIntoLocal(map[local := r, global := r], {global}, s, c, m);
    assert map[local := r, global := r][global := Rec(0, 2)][local := Rec(0, 2)] == map[local := Rec(0, 2), global := Rec(0, 2)];
  }

  /**
   * Local {levels 0, exp 123} and global {levels 2, exp 0}: the intended rule gives local
   * {1, 0} and global {2, 2}; the handler writes {2, 2} to both keys and sends no notice.
   */
  lemma TwoScopesExample(s: Settings, c: GuildCache, m: MessageCreate.Message)
    requires MessageCreate.Admitted(s, m)
    ensures var local, global := Local(m.guildId, m.authorId), Global(m.authorId);
      var records := map[local := Rec(0, 123), global := Rec(2, 0)];
      var e := MessageCreate.Handle(records, {}, s, c, m);
      && Advance(Rec(0, 123), ExpPerMessage) == Advanced(Rec(1, 0), true)
      && Advance(Rec(2, 0), ExpPerMessage) == Advanced(Rec(2, 2), false)
      && e.records == map[local := Rec(2, 2), global := Rec(2, 2)]
      && e.notice == None
  {
    var local, global := Local(m.guildId, m.authorId), Global(m.authorId);
    var records := map[local := Rec(0, 123), global := Rec(2, 0)];
    MessageCreate.NoLevelUpCopiesGlobalIntoLocal(records, {}, s, c, m);
  }
}
