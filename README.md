# Pin archive bot — a Dafny model of its core

The bot watches reactions in a Discord guild. When a message collects enough
reactions with the guild's trigger emoji, the bot pins it. It keeps the
channel's pin list under the platform's cap of 50 by unpinning the oldest pin
once the list holds 49. When the platform posts its "message pinned" notice,
the bot copies the pinned message into the guild's archive channel as one or
more rich embeds.

Per-guild settings live in a `config` table holding the archive channel, the
trigger emoji and the reaction threshold. The slash commands `init`,
`setreactcount` and `getreactcount` read and write that table.

The model follows `src/pin-archive.ts`:

- `discord.dfy` (`Discord`): the platform records the core reads (message, embed, attachment, member).
- `config.dfy` (`Config`): the table as a `map` from guild id to row, and the pure outcome of each command.
  It also holds a `ConfigTable` class whose handler methods update the map in place.
  Lemmas cover sequences of commands: rows are never removed, only a successful `init` creates one, and rows stay well formed.
- `formatter.dfy` (`Formatter`): `formatEmbeds` as a pure function with its four disjoint layouts.
- `pins.dfy` (`PinManager`): the pinned list, newest first, as a `seq` field of a `Channel` class.
  `MaybeUnpin`, `Pin` and `SafePin` are methods proved against the functions `Unpinned`, `Pinned` and `SafePinned`.
- `reactions.dfy` (`Reactions`): the chain of guards in the reaction-add handler.
- `archive.dfy` (`Archive`): `archiveMessage` as the list of outbound calls it makes (send, then react).
- `events.dfy` (`Events`): the two event handlers, which join the evaluator, the pin list and the archive plan.

Platform calls, the SQL engine and thrown exceptions become parameters:

- an `Option` for a lookup that may find nothing;
- a boolean for a call that may fail, when the source catches that failure;
- `Reactions.Query` for a store read that may throw.

The migration defaults for `react_trigger` and `react_count` are the parameter `Config.Defaults`.

Behaviour of the code that the model keeps as written:

- `init` checks only the SEND_MESSAGES permission of the caller in the archive channel (line 78).
- `setreactcount` has no permission check. Its `n >= 1` comes from the command schema (line 313), so it is a precondition of `SetReactCountCommand` only.
- In the reaction handler, a store lookup that throws is caught at lines 366-368 without returning, so it still reaches `safePin`.
- An absent threshold (`?? NaN` at line 361) makes `count < NaN` false, so it never stops the handler.
- On a failed read, `getreactcount` replies "failed" and then also "not initialized", because the `catch` at lines 53-56 does not return.
- `archiveMessage` tests `message.inGuild` (line 206) and `archiveChannel.isText` (line 230) without calling them. Both tests are always false, so the model has no text-channel guard.
- `formatEmbeds` reads `message.member!` inside the `try` of `archiveMessage`. A message whose author has left the guild therefore produces no send and no reaction (`Formatter.MemberMissing`).
- When the channel is missing from the cache, the archive message is sent without embeds (`SentEmbeds` gives `None`).
- `safePin` runs `maybeUnpin` even for a message that is already pinned, so with 49 or more pins the oldest is unpinned and nothing new is added (`PinManager.SafePinned`).

## Model

| member | source | states |
|---|---|---|
| Config.GetReactCount | src/pin-archive.ts:28-34 | the threshold is present exactly when the guild has a row, and is that row's `react_count` |
| Config.GetReactTrigger | src/pin-archive.ts:36-42 | the trigger is present exactly when the guild has a row, and is that row's `react_trigger` |
| Config.Upsert | src/pin-archive.ts:85-92 | adds the guild to the keys; sets `archive_channel_id`; keeps an existing row's trigger and count, or gives a new row the defaults; leaves other guilds unchanged |
| Config.UpsertIdempotent | src/pin-archive.ts:85-92 | running `init` twice with the same channel stores the same table as running it once |
| Config.UpdateCount | src/pin-archive.ts:117-125 | the keys are unchanged; an existing row changes only in `react_count`; other rows are untouched |
| Config.Changes | src/pin-archive.ts:127-135 | the update changes at most one row, and zero exactly when the guild has no row |
| Config.InitOutcome | src/pin-archive.ts:65-108 | outside a guild: no reply. Missing channel, missing send permission or failed write: the table is unchanged and the matching single reply is sent. Otherwise: the upsert and an "initialized" reply |
| Config.SetReactCountOutcome | src/pin-archive.ts:110-141 | never adds or removes a row. A failed write or a missing row leaves the table unchanged and replies "failed" or "not initialized". An existing row gets the new count and a confirmation; other rows are untouched |
| Config.GetReactCountOutcome | src/pin-archive.ts:44-63 | never changes the table. Replies with the count when the row exists, "not initialized" when it does not, and both "failed" and "not initialized" when the read throws |
| Config.Execute | src/pin-archive.ts:44-141 | no command removes a row; only `init` can add one, and only for its own guild |
| Config.ReplayKeepsRows | src/pin-archive.ts:44-141 | after any sequence of commands every initialized guild is still initialized: there is no Active to Uninitialized transition |
| Config.OnlyInitActivates | src/pin-archive.ts:65-108 | a guild without a row gains one only through a successful `init` in that guild |
| Config.ReplayKeepsWellFormed | src/pin-archive.ts:85-125 | every row keeps an archive channel and a count of at least 1, given a positive default and counts validated by the command schema (line 313) |
| Config.ConfigTable.InitCommand | src/pin-archive.ts:65-108 | the new table and the replies are those of `InitOutcome` on the old table |
| Config.ConfigTable.SetReactCountCommand | src/pin-archive.ts:110-141 | requires `n >= 1`; the new table and the replies are those of `SetReactCountOutcome` |
| Config.ConfigTable.GetReactCountCommand | src/pin-archive.ts:44-63 | the replies are those of `GetReactCountOutcome`; the table is read only |
| Formatter.AttachmentEmbeds | src/pin-archive.ts:192-198 | one embed per attachment, in order: title "🔗", url and description the attachment url, image the proxy url exactly for `image/` content types |
| Formatter.FormatEmbeds | src/pin-archive.ts:143-203 | a channel missing from the cache gives no result. The first embed always carries content, url, "Sent in" footer, `name#discriminator` author and timestamp, and no title or thumbnail. E=1,A=0: one embed with its image (else thumbnail), title field and link field. A=1,E=0 image: one embed with the attachment image. A>0,E>0: E+A embeds, with "See attached", then `embeds[1..]`, then the attachment embeds. Otherwise: exactly one bare embed |
| Formatter.OneEmbedTwoAttachments | src/pin-archive.ts:187-199 | one embed and two attachments give three embeds, the first carrying "See attached" |
| PinManager.Unpinned | src/pin-archive.ts:252-259 | at 49 or more pins exactly the last (oldest) pin is removed; below 49 the list is unchanged |
| PinManager.Pinned | src/pin-archive.ts:268 | the message ends up pinned; a new pin is the newest entry ahead of the old list; an already pinned message leaves the list as it was |
| PinManager.SafePinned | src/pin-archive.ts:261-269 | not pinnable: unchanged. Otherwise `maybeUnpin` runs first, even for an already pinned message; the message is then added ahead of the evicted list unless it is still pinned, in which case the evicted list is the result. A new pin never grows a list of 49 or more. A list of at most 49 stays at most 49. Every pin except the oldest survives |
| PinManager.Channel.MaybeUnpin | src/pin-archive.ts:252-259 | the pinned list becomes `Unpinned` of the old list |
| PinManager.Channel.Pin | src/pin-archive.ts:268 | the pinned list becomes `Pinned` of the old list |
| PinManager.Channel.SafePin | src/pin-archive.ts:261-269 | the pinned list becomes `SafePinned` of the old list, and stays within 49 if it was |
| Reactions.Evaluate | src/pin-archive.ts:326-373 | reaches `safePin` exactly when the guild is set, any re-fetch succeeds, the message is complete, and either the trigger lookup threw or the emoji equals the trigger with the count lookup throwing, absent or at most the count. Each early return is tied to its guard |
| Reactions.TriggerQuery | src/pin-archive.ts:355 | a lookup that does not throw finds a trigger exactly for an initialized guild |
| Reactions.UninitializedNeverPins | src/pin-archive.ts:355-359 | in a guild without a row no reaction reaches `safePin` unless the lookup throws |
| Reactions.FireThresholdExample | src/pin-archive.ts:357-365 | with trigger 🔥 and threshold 3: 🔥 at count 2 stops below threshold, 🔥 at 3 pins, 👍 at any count stops as another emoji |
| Archive.ArchivePlan | src/pin-archive.ts:205-250 | nothing happens without a guild, a config row or the archive channel, or when formatting throws. Otherwise the first call sends the author mention and link with the formatter's embeds. The reaction with the guild's trigger follows exactly when the send succeeds |
| Events.OnReactionAdd | src/pin-archive.ts:326-373 | the decision is `Evaluate` on the table's lookups; the pinned list changes, by `SafePinned`, only when the decision is to pin |
| Events.OnMessageCreate | src/pin-archive.ts:375-385 | only a pin notice in a guild acts: it evicts by `Unpinned`, then returns `ArchivePlan`; any other message changes nothing |
| Events.PinAndNotice | src/pin-archive.ts:370-385 | a reaction pin followed by its pin notice leaves a list of at most 49 strictly below 49, with a newly pinned message as the newest pin |

## Left out

- The `ping` command: it only reports wall-clock latency.
- Command registration, the slash-command option schema, client construction, intents, dispatch, the ready-time deploy loop, environment loading, database opening and migrations: these are library calls and I/O bootstrap (`src/bot.ts` and `src/main.ts` are not part of this model).
- Concurrency: the interleaving of asynchronous handlers, and the accepted race between counting the pins and pinning.
- Rejections the source does not catch end a handler with nothing further happening, and they are not modelled: the config read in `archiveMessage`, `message.fetch`, `fetchReference`, `fetchPinned`, unpin, pin and react.
- Config.InitOutcome: does not model a rejection of `interaction.guild!.fetch()`, `guild.channels.fetch(...)` or `pinChannel.fetch()` (src/pin-archive.ts:68-69); the command dispatcher does not await the handler, so such a rejection ends `init` with no write and no reply, while the model always replies once inside a guild.
- Validation inside the embed builder library (for example its refusal of empty field values), and the exact wording of replies and log output.
- The platform's own pinnability rule: `pinnable` is an input flag. Re-pinning an already pinned message is modelled as leaving the list unchanged.
- Avatar icon and timestamp are carried as opaque values; the platform's rendering of them is not modelled.
