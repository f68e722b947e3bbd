# Levelling engine and warn admission: a Dafny model

This project models the levelling engine of a chat bot, together with its warn command.

- **Message handler.** Every message from a human in the bot's home guild can earn exp. When levelling is enabled for the guild, the handler reads the author's local record (`{guild}.{user}`) and global record (`global.{user}`). It then writes one of two update paths to the levelling table. On a level-up it also sends a notice and requests one role grant or revocation per reward rule.
- **Level query.** This command shows a user's level, their exp, and the exp the level needs. It may write a default record. It splits the guild's reward catalogue into the rewards the user holds and the next reward.
- **Warn command.** An ordered chain of four admission checks runs first. On success the command appends one warn record to the target's list in the moderation table.

The model follows the code as written. That includes the quirks listed below. The intended rule ("add the gain, level up on reaching the threshold and keep the remainder") is stated separately in module `Progression`. Lemmas there show where the handler departs from it.

Modules:

- `Wrappers` holds `Option` and `Result`.
- `Store` holds the keys, records and settings, the `LevelingTable` class and the threshold formula `Threshold(L) = 125 * (L + 1)`. That is `floor(100 * 1.25 * (L + 1))`, where 1.25 is the exact 5/4.
- `MessageCreate` holds the handler. `Handle` states the effect of one run. `Run`, `WriteRecords`, `NotifyAndSync` and `SyncRewards` perform the run against the table.
- `Level` holds the level query. `Query` is its specification, and `Run` and `ScanRewards` perform it.
- `Warn` holds the warn command. `WarnRun` is its specification, `Run` performs it, and the `ModerationTable` class holds the warn lists.
- `Progression` holds the intended `Advance` rule, total-exp accounting, and the lemmas comparing the handler with the rule.

Inputs from outside the program are explicit parameters:

- The settings values arrive as `Fetch` values: `Failed` (the read rejected), `Missing` or `Found(v)`.
- The table's `faults` are the keys whose `get` rejects during a run.
- The guild's cached channels and roles form a `GuildCache`.
- The warn's timestamp is `now`.
- Whether a DM channel could be opened is `dmOpened`.

Quirks of the code that the model keeps:

- Below the level-up mark, the handler writes the global record plus 2 to the local key as well as to the global key (`MessageCreate.NoLevelUpCopiesGlobalIntoLocal`).
- The level-up decision uses the local exp before the message (`exp >= threshold - 1`). The level-up path does not add the message's 2 exp.
- The global level-up uses the local exp, the local threshold and the local level, and adds 1 to the leftover. It happens only when the old local exp reaches the global level's mark.
- The reward pass judges each rule on the level from before the level-up.
- A missing local record makes the destructuring of `null` throw, so the run ends with no writes.
- When the level channel setting is missing, `String(null)` gives the text `"null"`, which is truthy. A channel id that is not in the guild's cache makes `.send` throw after the store writes. The run then ends without a notice or role requests.
- A role that is not in the guild's role cache makes `add`/`remove` reject, so the reward pass stops at that rule.
- In the level query, a missing record reads as `{exp: 0, level: 0}`, with the key `level` instead of `levels`. The level is therefore absent (`Option<nat>`), every rule counts as held, and there is no next reward.
- A rejected local read in the level query gives `{0, 0}`. The default write then overwrites a stored record with `{0, 0}` (`Level.FailedReadResetsRecord`).
- One rejected global read can wipe the user's level. The global record then defaults to `{0, 0}`, and below the level-up mark that default plus 2 is written to both keys. A user at `{5, 0}` in both scopes ends at `{0, 2}` in both (`Progression.RejectedGlobalReadResetsLevel`).
- Two short of the threshold, the handler does not level up. When the global record equals the local one, it stores an exp equal to the whole threshold, which breaks the bound exp < threshold(level) (`Progression.LevelUpComesOneMessageLate`).
- In the warn command, a configured log channel that is not in the guild's cache makes `undefined.fetch()` throw. The warn is then not stored.

## Model

| member | source | states |
|---|---|---|
| `Store.Threshold` | src/events/messageCreate.ts:56-58 | the exp that completes level L is floor(100 * 5/4 * (L+1)) and at least 125 |
| `Store.ThresholdOfFirstLevels` | src/events/messageCreate.ts:33-35 | threshold(0) = 125, threshold(1) = 250, threshold(4) = 625 |
| `Store.ThresholdStrictlyIncreasing` | src/events/messageCreate.ts:56 | the threshold is strictly increasing, by 125 per level |
| `Store.Catalogue` | src/events/messageCreate.ts:108-111 | a missing or rejected rewards setting gives the empty catalogue, otherwise the stored one |
| `Store.Lookup` | src/events/messageCreate.ts:44-49 | a table read rejects exactly for faulted keys, is missing exactly for absent unfaulted keys, else returns the stored record |
| `Store.LevelingTable.Get` | src/events/messageCreate.ts:44-54 | the read method returns a rejection, nothing, or the stored record, under the same conditions as `Lookup` |
| `Store.LevelingTable.Set` | src/events/messageCreate.ts:73 | a write replaces exactly one key's record |
| `MessageCreate.LocalOrAbort` | src/events/messageCreate.ts:44-46 | a rejected local read gives {0,0}; a missing record ends the run (None); a stored record is used as is |
| `MessageCreate.GlobalOrDefault` | src/events/messageCreate.ts:48-54 | a missing or rejected global read gives {levels 0, exp 0}, otherwise the stored record |
| `MessageCreate.Leftover` | src/events/messageCreate.ts:67-68 | the leftover is exp - threshold(levels) clamped at 0, and leftover + threshold >= exp |
| `MessageCreate.NoticeChannel` | src/events/messageCreate.ts:86-91 | a rejected read or an empty id stops the run; a missing setting becomes the text "null"; a set, non-empty id is the channel used |
| `MessageCreate.ActionFor` | src/events/messageCreate.ts:118-123 | a rule's request names its role and is Add exactly when the level is at least the rule's level |
| `MessageCreate.FirstUnknownRole` | src/events/messageCreate.ts:114-119 | the index of the first rule whose role is not cached: every earlier role is cached, and so is none at that index |
| `MessageCreate.SyncRewards` | src/events/messageCreate.ts:114-124 | the loop emits one request per rule, in order, up to the first uncached role, each Add or Remove by the level |
| `MessageCreate.NotifyAndSync` | src/events/messageCreate.ts:86-124 | a notice names level + 1 and threshold(level + 1); without a notice there are no role requests |
| `MessageCreate.WriteRecords` | src/events/messageCreate.ts:56-84 | the store after the writes is `Written` of the old store, and the result says whether the level-up path ran |
| `MessageCreate.Run` | src/events/messageCreate.ts:14-125 | one run leaves the store, notice and role requests that `Handle` gives for the old store |
| `MessageCreate.GatedRunChangesNothing` | src/events/messageCreate.ts:19-46 | bots, other guilds, a false/missing/rejected flag and a missing local record leave the store unchanged, with no notice and no requests |
| `MessageCreate.RunTouchesOnlyAuthorKeys` | src/events/messageCreate.ts:63-84 | every key other than the author's local and global keys keeps its presence and value |
| `MessageCreate.NoLevelUpCopiesGlobalIntoLocal` | src/events/messageCreate.ts:61-65 | if old local exp < threshold(levels) - 1, both keys get {global levels, global exp + 2}, with no notice and no requests |
| `MessageCreate.LevelUpLocalRecord` | src/events/messageCreate.ts:66-73 | on the level-up path the local level rises by exactly one and its exp is max(0, exp - threshold(levels)), without the +2 |
| `MessageCreate.LevelUpGlobalRecord` | src/events/messageCreate.ts:76-84 | the global key becomes {levels + 1, leftover + 1} iff old local exp >= threshold(global levels) - 1, and is unchanged otherwise |
| `MessageCreate.NoticeAndRewardPass` | src/events/messageCreate.ts:86-124 | a notice is sent iff the run levels up and the channel is usable and cached; it names levels + 1 and threshold(levels + 1), and only then does the pass run, on the old level |
| `MessageCreate.RewardPassAllRolesKnown` | src/events/messageCreate.ts:114-124 | with every role cached there is exactly one request per rule, Add iff the old level is at least the rule's level, else Remove |
| `MessageCreate.NewlyReachedRewardIsRemoved` | src/events/messageCreate.ts:118 | a rule for exactly the level just reached has its role removed, not added |
| `MessageCreate.NoCatalogueNoActions` | src/events/messageCreate.ts:108-111 | a missing or rejected rewards setting gives no role requests |
| `Level.ReadForQuery` | src/commands/user/level.ts:48-54 | a stored record gives both fields; a missing one gives exp 0 and no level; a rejected read gives {0, 0} |
| `Level.ScanRewards` | src/commands/user/level.ts:70-81 | held is the longest prefix of reached rules; next is the first locked rule, or none when all were held |
| `Level.ScanDeterminedByFirstLocked` | src/commands/user/level.ts:70-81 | the first locked index (or the end) determines the held rewards and the next reward |
| `Level.ScanIsLongestUnlockedPrefix` | src/commands/user/level.ts:70-81 | held rewards are a prefix of the catalogue with level <= levels, ended by the next reward, which is the first rule with levels < level |
| `Level.ScanNextNoneIff` | src/commands/user/level.ts:60-79 | there is no next reward iff no rule has levels < rule.level, iff every rule is held |
| `Level.ScanStopsAtFirstLocked` | src/commands/user/level.ts:74-77 | no rule at or after a locked rule is held |
| `Level.ScanWithoutLevelHoldsAll` | src/commands/user/level.ts:74 | with an absent level, every rule is held and there is no next reward |
| `Level.Run` | src/commands/user/level.ts:23-107 | one query leaves the store and gives the reply that `Query` states |
| `Level.DisabledQuery` | src/commands/user/level.ts:36-46 | a false, missing or rejected flag gives the disabled error and leaves the store unchanged |
| `Level.QueryDisplay` | src/commands/user/level.ts:83-92 | the shown level is levels ?? 0, the next level is one above it, and the exp needed is 125 * (level + 1) |
| `Level.QueryDefaultWrite` | src/commands/user/level.ts:58 | {levels 0, exp 0} is written to the local key iff exp and levels are both 0 or absent |
| `Level.QueryChangesStoreIff` | src/commands/user/level.ts:48-58 | the store changes iff levelling is on and the record is absent, or is unreadable and not already {0, 0} |
| `Level.FailedReadResetsRecord` | src/commands/user/level.ts:54-58 | a record that cannot be read is overwritten with {0, 0} |
| `Level.MissingRecordHoldsEveryReward` | src/commands/user/level.ts:51-81 | for a user with no record: level 0 and exp 0 are shown, every rule is held, there is no next reward, and {0, 0} is written |
| `Level.NoCatalogueNoRewards` | src/commands/user/level.ts:62-68 | a missing or rejected rewards setting gives no held reward and no next reward |
| `Warn.WarnsOf` | src/commands/moderation/warn.ts:100 | a key with no list reads as the empty list |
| `Warn.ModerationTable.Push` | src/commands/moderation/warn.ts:100 | the record is appended to the end of the key's list, which is created if absent; other keys are unchanged |
| `Warn.Admission` | src/commands/moderation/warn.ts:38-50 | the first failing check decides: no permission, then self-warn, then not manageable, then a strictly higher target; otherwise admitted |
| `Warn.LogChannelStep` | src/commands/moderation/warn.ts:81-96 | a post goes out iff the log channel is set, cached and a guild text channel; a set but uncached id throws |
| `Warn.Run` | src/commands/moderation/warn.ts:31-102 | one warn leaves the table, reply, log post and DM that `WarnRun` states |
| `Warn.EqualPositionsPass` | src/commands/moderation/warn.ts:48 | equal top role positions pass the position check |
| `Warn.RefusedWarnAppendsNothing` | src/commands/moderation/warn.ts:38-50 | a refused warn stores nothing, posts nothing and replies with the first failing check |
| `Warn.AdmittedWarnAppendsOne` | src/commands/moderation/warn.ts:52-100 | when the log step does not throw (`LogChannelStep(...) != Throws`), an admitted warn appends exactly one record {now, target, invoker, reason or "No reason provided"} to the end of the target's list; earlier entries and other lists are unchanged |
| `Warn.LogPostedIff` | src/commands/moderation/warn.ts:81-96 | the log post goes out iff the warn is admitted and the log channel is set, cached and a guild text channel |
| `Warn.DirectMessageDoesNotGateAppend` | src/commands/moderation/warn.ts:98-100 | whether a DM channel opens does not change what is stored |
| `Warn.UnknownLogChannelStoresNothing` | src/commands/moderation/warn.ts:86-89 | a set log channel that is not cached stores nothing, and an admitted warn then gets no reply |
| `MessageCreate.RewardPass` | src/events/messageCreate.ts:114-124 | the role requests of the reward pass; its properties are stated by `SyncRewards`, `RewardPassAllRolesKnown` and `NewlyReachedRewardIsRemoved` |
| `MessageCreate.LevelUpTail` | src/events/messageCreate.ts:86-124 | the notice and role requests after the writes; its properties are stated by `NotifyAndSync` and `NoticeAndRewardPass` |
| `MessageCreate.Written` | src/events/messageCreate.ts:56-84 | the store after the two update paths; its properties are stated by `WriteRecords`, `NoLevelUpCopiesGlobalIntoLocal`, `LevelUpLocalRecord` and `LevelUpGlobalRecord` |
| `MessageCreate.Handle` | src/events/messageCreate.ts:14-125 | the effect of one handler run; its properties are stated by `Run` and the `MessageCreate` lemmas |
| `Level.Scan` | src/commands/user/level.ts:70-81 | the held rewards and the next reward; its properties are stated by `ScanRewards` and the `Scan` lemmas |
| `Level.Query` | src/commands/user/level.ts:23-107 | the effect of one level query; its properties are stated by `Run` and the `Query` lemmas |
| `Warn.WarnRun` | src/commands/moderation/warn.ts:31-102 | the effect of one warn; its properties are stated by `Run` and the `Warn` lemmas |
| `Progression.CumulativeClosedForm` | src/events/messageCreate.ts:56 | reaching level L from 0 takes 125 * L * (L + 1) / 2 exp in total |
| `Progression.Advance` | src/events/messageCreate.ts:56-73 | the intended rule keeps total exp plus the gain, rises at most one level, and levels up iff exp + gain reaches the threshold |
| `Progression.AdvanceKeepsExpBelowThreshold` | src/events/messageCreate.ts:56-73 | under the intended rule, exp < threshold(level) is preserved for gains up to threshold(level + 1) |
| `Progression.AdvanceExamples` | src/events/messageCreate.ts:33-73 | intended rule: {0,0}+2 gives {0,2}; {0,123}+2 gives {1,0}; {0,124}+10 gives {1,9} |
| `Progression.LevelUpLosesMessageExp` | src/events/messageCreate.ts:66-73 | the local record written on a level-up stands for less total exp than the intended rule gives, and at most one more than before |
| `Progression.LevelUpComesOneMessageLate` | src/events/messageCreate.ts:61-65 | with the same record two short of its threshold at both keys, the intended rule levels up, but `Handle` sends no notice and writes {level, threshold(level)} to the local key, breaking exp < threshold(level) |
| `Progression.NoLevelUpMatchesAdvanceIffScopesAgree` | src/events/messageCreate.ts:48-65 | for any store with local record `loc` more than 2 short of its threshold, the record `Handle` writes to the local key equals the intended `Advance(loc, 2)` iff the global record as read equals `loc` |
| `Progression.RejectedGlobalReadResetsLevel` | src/events/messageCreate.ts:52-65 | with the same record below the mark at both keys and the global read rejected, `Handle` writes {0, 2} to both keys, so any level above 0 is lost |
| `Progression.TwoScopesExample` | src/events/messageCreate.ts:48-65 | local {0,123} with global {2,0}: the intended rule gives local {1,0} and global {2,2}; the handler writes {2,2} to both keys and sends no notice |

## Left out

- The easter-egg loop that imports handler files from a directory is filesystem and module I/O.
- The levelling table, the settings table and the moderation table are not modelled as a transport. A write is assumed to succeed. In the source a rejected write ends the run at that point.
- Every message send is treated as delivered: the level-up notice, the log post, the DM and the replies. In the source a rejected awaited send ends the run there.
- What is done with a notice or role request is outside the model. The notice is only reported; its embed, colour, avatar and number formatting are presentation. The role requests are reported as `Add`/`Remove` values rather than performed.
- The kind of the level channel is not checked. The cast to a text channel does nothing at run time. In the source, a cached channel without `send` (a category or a forum) throws at `levelChannel.send` (src/events/messageCreate.ts:106), so the run ends after the store writes with no role requests. `MessageCreate.LevelUpTail` instead reports the notice and runs the reward pass for any cached channel.
- The reward pass assumes that `guild.members.fetch()` (src/events/messageCreate.ts:113) succeeds and that every `add`/`remove` of a cached role succeeds. In the source a rejection at line 113, 119 or 123 ends the pass there, for example when the bot lacks the Manage Roles permission or the role is above the bot's highest role.
- `Warn.LogChannelStep` assumes that the `fetch()` of a cached log channel succeeds. In the source a rejected fetch gives `null` (src/commands/moderation/warn.ts:87-93): nothing is posted, but the warn is still appended. The model posts whenever the channel is cached and a guild text channel.
- `Warn.Run` treats the DM as delivered once a DM channel opens. In the source, a rejected DM send (for example to a user who has closed their DMs) is awaited at src/commands/moderation/warn.ts:99, before the push at line 100, so the run ends with no warn stored and no reply.
- The levelling flag is modelled as a boolean. The source tests it by truthiness (src/events/messageCreate.ts:39 and src/commands/user/level.ts:39), so stored non-boolean values such as `1` or `"yes"` would also count as on; those values are not modelled.
- `Warn.Run` assumes that the invoker and the target are both in the guild's member cache. The source reads both from that cache before any check.
- `Level.Run` takes the queried user as the parameter `user`. In the source that user is the command's user option, or else the invoker.
- `Level.Run` likewise assumes that the queried member is cached. A role that fails to fetch is pushed as `undefined`, and rendering it fails. Held rewards are modelled as the reward rules themselves.
- The warn reason is the option as given. Its rendering in the embeds is presentation.
- Stored exp and levels are modelled as natural numbers. The global `parseInt` and the unparsed local values agree on what the bot itself writes. Malformed stored values, which would give `NaN`, are not modelled.
- JavaScript numbers are doubles. Integers beyond 2^53 are not modelled.
- Concurrency is not modelled. Each handler run is atomic, so lost updates between concurrent messages are out of scope.
- The time source (`Date.now()`) is the parameter `now`.
- The guild's levelling settings are taken as one `Settings` value per run, read-only.
- `src/commands/about.ts` is not part of this model. It is UI text and cache counts.
