/**
 * The warn command: an ordered chain of four admission checks, then one warn record
 * appended to the target's list in the moderation table.
 *
 * `WarnRun` states the effect of one command; `Warn.Run` performs it against a
 * `ModerationTable`. Messages (the log post, the direct message, the replies) are
 * reported as values; the platform is assumed to deliver them.
 */
module Warn {
  import opened Wrappers
  import opened Store

  /** A guild member as the command sees it: id, permission, manageability by the bot, top role position. */
  datatype Member = Member(id: UserId, canModerate: bool, manageable: bool, highestPosition: int)

  datatype WarnError = MissingPermission | WarnsSelf | NotManageable | OutranksInvoker

  /** One stored warn: its id (the time of the command), the warned user, the moderator, the reason. */
  datatype WarnRecord = WarnRecord(id: int, userId: UserId, moderator: UserId, reason: string)

  /** The moderation-table key `{guild}.{user}.warns`. */
  datatype WarnKey = WarnKey(guild: GuildId, user: UserId)

  const DefaultReason: string := "No reason provided"

  /** The warns stored under `k`; an absent list is the empty one. */
  function WarnsOf(warns: map<WarnKey, seq<WarnRecord>>, k: WarnKey): (ws: seq<WarnRecord>)
    ensures k in warns ==> ws == warns[k]
    ensures k !in warns ==> ws == []
  {
    if k in warns then warns[k] else []
  }

  /** The moderation table, whose warn lists the command appends to in place. */
  class ModerationTable {
    var warns: map<WarnKey, seq<WarnRecord>>

    constructor (warns0: map<WarnKey, seq<WarnRecord>>)
      ensures warns == warns0
    {
      warns := warns0;
    }

    /** Append `w` to the list at `k`, creating the list when there is none. */
    method Push(k: WarnKey, w: WarnRecord)
      modifies this`warns
      ensures warns == old(warns)[k := WarnsOf(old(warns), k) + [w]]
    {
      warns := warns[k := WarnsOf(warns, k) + [w]];
    }
  }

  /**
   * The admission checks in the order the command runs them; the first that fails decides
   * the error. Equal top positions pass, since only a strictly lower invoker is refused.
   */
  function Admission(invoker: Member, target: Member): (r: Option<WarnError>)
    ensures r == Some(MissingPermission) <==> !invoker.canModerate
    ensures r == Some(WarnsSelf) <==> invoker.canModerate && target.id == invoker.id
    ensures r == Some(NotManageable) <==>
      invoker.canModerate && target.id != invoker.id && !target.manageable
    ensures r == Some(OutranksInvoker) <==>
      invoker.canModerate && target.id != invoker.id && target.manageable
      && invoker.highestPosition < target.highestPosition
    ensures r == None <==>
      invoker.canModerate && target.id != invoker.id && target.manageable
      && invoker.highestPosition >= target.highestPosition
  {
    if !invoker.canModerate then Some(MissingPermission)
    else if target.id == invoker.id then Some(WarnsSelf)
    else if !target.manageable then Some(NotManageable)
    else if invoker.highestPosition < target.highestPosition then Some(OutranksInvoker)
    else None
  }

  /** The record a successful warn stores. */
  function NewWarn(now: int, invoker: Member, target: Member, reason: Option<string>): WarnRecord {
    WarnRecord(now, target.id, invoker.id, reason.GetOr(DefaultReason))
  }

  /** What the log-channel step does: nothing, post to a channel, or throw. */
  datatype LogStep = NoLog | PostTo(channel: ChannelId) | Throws

  /**
   * A configured (non-empty) log channel is looked up in the guild's cache: an unknown id
   * makes `undefined.fetch()` throw; a channel that is not a guild text channel is skipped.
   */
  function LogChannelStep(f: Fetch<ChannelId>, cache: GuildCache): (step: LogStep)
    ensures step == NoLog <==>
      !f.Found? || f.value == "" || (f.value in cache.channels && cache.channels[f.value] != GuildText)
    ensures step.PostTo? <==>
      f.Found? && f.value != "" && f.value in cache.channels && cache.channels[f.value] == GuildText
    ensures step.PostTo? ==> step.channel == f.value
    ensures step == Throws <==> f.Found? && f.value != "" && f.value !in cache.channels
  {
    if !f.Found? || f.value == "" then NoLog
    else if f.value !in cache.channels then Throws
    else if cache.channels[f.value] == GuildText then PostTo(f.value)
    else NoLog
  }

  datatype Reply = Refused(error: WarnError) | Warned(warn: WarnRecord)

  /** Everything one command leaves behind; `reply` is None when the command threw first. */
  datatype WarnEffects = WarnEffects(warns: map<WarnKey, seq<WarnRecord>>, reply: Option<Reply>,
                                     logPost: Option<ChannelId>, dmSent: bool)

  /** The effect of one warn of `target` by `invoker` in `guild`, at time `now`. */
  function WarnRun(warns: map<WarnKey, seq<WarnRecord>>, s: Settings, cache: GuildCache, guild: GuildId,
                   invoker: Member, target: Member, reason: Option<string>, now: int, dmOpened: bool): WarnEffects
  {
    match Admission(invoker, target)
    case Some(e) => WarnEffects(warns, Some(Refused(e)), None, false)
    case None =>
      var w := NewWarn(now, invoker, target, reason);
      var k := WarnKey(guild, target.id);
      match LogChannelStep(s.logChannel, cache)
      case Throws => WarnEffects(warns, None, None, false)
      case NoLog => WarnEffects(warns[k := WarnsOf(warns, k) + [w]], Some(Warned(w)), None, dmOpened)
      case PostTo(id) => WarnEffects(warns[k := WarnsOf(warns, k) + [w]], Some(Warned(w)), Some(id), dmOpened)
  }

  /** One warn command against `table`; `dmOpened` says whether opening the DM channel succeeded. */
  method Run(table: ModerationTable, s: Settings, cache: GuildCache, guild: GuildId,
             invoker: Member, target: Member, reason: Option<string>, now: int, dmOpened: bool)
    returns (reply: Option<Reply>, logPost: Option<ChannelId>, dmSent: bool)
    modifies table`warns
    ensures var e := WarnRun(old(table.warns), s, cache, guild, invoker, target, reason, now, dmOpened);
      table.warns == e.warns && reply == e.reply && logPost == e.logPost && dmSent == e.dmSent
  {
    reply, logPost, dmSent := None, None, false;
    if !invoker.canModerate {
      return Some(Refused(MissingPermission)), None, false;
    }
    if target.id == invoker.id {
      return Some(Refused(WarnsSelf)), None, false;
    }
    if !target.manageable {
      return Some(Refused(NotManageable)), None, false;
    }
    if invoker.highestPosition < target.highestPosition {
      return Some(Refused(OutranksInvoker)), None, false;
    }

    var newWarn := WarnRecord(now, target.id, invoker.id, reason.GetOr(DefaultReason));

    if s.logChannel.Found? && s.logChannel.value != "" {
      var logChannel := s.logChannel.value;
      if logChannel !in cache.channels {
        return;
      }
      if cache.channels[logChannel] == GuildText {
        logPost := Some(logChannel);
      }
    }

    dmSent := dmOpened;
    table.Push(WarnKey(guild, target.id), newWarn);
    reply := Some(Warned(newWarn));
  }

  // Properties of one command

  /** Equal top role positions pass the position check. */
  lemma EqualPositionsPass(invoker: Member, target: Member)
    requires invoker.canModerate && target.id != invoker.id && target.manageable
    requires invoker.highestPosition == target.highestPosition
    ensures Admission(invoker, target) == None
  {
  }

  /** A refused warn stores nothing, posts nothing and replies with the first failing check. */
  lemma RefusedWarnAppendsNothing(warns: map<WarnKey, seq<WarnRecord>>, s: Settings, cache: GuildCache, guild: GuildId,
                                  invoker: Member, target: Member, reason: Option<string>, now: int, dmOpened: bool)
    requires Admission(invoker, target).Some?
    ensures var e := WarnRun(warns, s, cache, guild, invoker, target, reason, now, dmOpened);
      e.warns == warns && e.reply == Some(Refused(Admission(invoker, target).value)) && e.logPost == None
  {
  }

  /**
   * An admitted warn whose log step does not throw appends exactly one record to the end
   * of the target's list, keeps the earlier entries, and leaves every other list alone.
   */
  lemma AdmittedWarnAppendsOne(warns: map<WarnKey, seq<WarnRecord>>, s: Settings, cache: GuildCache, guild: GuildId,
                               invoker: Member, target: Member, reason: Option<string>, now: int, dmOpened: bool)
    requires Admission(invoker, target) == None
    requires LogChannelStep(s.logChannel, cache) != Throws
    ensures var e := WarnRun(warns, s, cache, guild, invoker, target, reason, now, dmOpened);
      var k := WarnKey(guild, target.id);
      var after := WarnsOf(e.warns, k);
      && |after| == |WarnsOf(warns, k)| + 1
      && after[..|after| - 1] == WarnsOf(warns, k)
      && after[|after| - 1] == WarnRecord(now, target.id, invoker.id, if reason.Some? then reason.value else DefaultReason)
      && e.reply == Some(Warned(after[|after| - 1]))
      && (forall k' :: k' != k ==> WarnsOf(e.warns, k') == WarnsOf(warns, k'))
  {
    var k := WarnKey(guild, target.id);
    var e := WarnRun(warns, s, cache, guild, invoker, target, reason, now, dmOpened);
    assert WarnsOf(e.warns, k)[..|WarnsOf(e.warns, k)| - 1] == WarnsOf(warns, k);
  }

  /** The log post goes out exactly for an admitted warn with a configured, cached guild text channel. */
  lemma LogPostedIff(warns: map<WarnKey, seq<WarnRecord>>, s: Settings, cache: GuildCache, guild: GuildId,
                     invoker: Member, target: Member, reason: Option<string>, now: int, dmOpened: bool)
    ensures var e := WarnRun(warns, s, cache, guild, invoker, target, reason, now, dmOpened);
      e.logPost.Some? <==>
        Admission(invoker, target) == None && s.logChannel.Found? && s.logChannel.value != ""
        && s.logChannel.value in cache.channels && cache.channels[s.logChannel.value] == GuildText
  {
  }

  /** Whether the DM channel could be opened does not affect what is stored. */
  lemma DirectMessageDoesNotGateAppend(warns: map<WarnKey, seq<WarnRecord>>, s: Settings, cache: GuildCache, guild: GuildId,
                                       invoker: Member, target: Member, reason: Option<string>, now: int)
    ensures WarnRun(warns, s, cache, guild, invoker, target, reason, now, true).warns
         == WarnRun(warns, s, cache, guild, invoker, target, reason, now, false).warns
  {
  }

  /** A configured log channel missing from the cache ends the command before the append. */
  lemma UnknownLogChannelStoresNothing(warns: map<WarnKey, seq<WarnRecord>>, s: Settings, cache: GuildCache, guild: GuildId,
                                       invoker: Member, target: Member, reason: Option<string>, now: int, dmOpened: bool)
    requires s.logChannel.Found? && s.logChannel.value != "" && s.logChannel.value !in cache.channels
    ensures var e := WarnRun(warns, s, cache, guild, invoker, target, reason, now, dmOpened);
      e.warns == warns && (Admission(invoker, target) == None ==> e.reply == None)
  {
  }
}
