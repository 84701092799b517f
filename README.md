# sussy-scouter: the scouting warning cycle, in Dafny

The bot watches a MongoDB collection of schedule blocks. Each block is a time
window with six volunteer scouting slots (blue 1-3, red 1-3) and two flags,
`min30` and `min10`, that record whether the "30 minutes" and "10 minutes"
warnings went out. Every three seconds `ping_scouters_task` fetches the
populated blocks, picks the first block that starts strictly after now, and
skips it if nobody is assigned. Otherwise it runs a two-step priority chain:
the far warning (at most 30 minutes away, `min30` unset), else the near
warning (at most 10 minutes away, `min10` unset). It records the chosen flag
in the database and on the in-memory block, and only then posts a message.
The message has the mentions of the assigned users, an embed with one field
per slot in fixed order, and a title with the block's start and end as
`HH:MM` in the competition's fixed UTC−4 zone.

This model covers one iteration of that loop, the flag updates, and the
message text:

- `wrappers.dfy` (`Wrappers`): `Option` and `Result`.
- `mention.dfy` (`Mention`): `ping_str`, the concatenation of mention tokens,
  and a reader that recovers the ids from that concatenation.
- `models.dfy` (`Models`): `User`, the persisted `ScheduleBlock`, the
  `scheduleBlocks` collection as a `Store` class keyed by `_id`, and
  `PopulatedScheduleBlock` as a class. Its fields that the code never writes
  are `const`. `min30` and `min10` are `var`s, written by `UpdateMin30` and
  `UpdateMin10`. `Pings` builds the mention string push by push, as the
  source does.
- `comp_time.dfy` (`CompTime`): the `CompTZ` offset
  (`FixedOffset::west_opt(4 h)`), the wall-clock hour and minute of an instant
  in that zone, its `%H:%M` text, and a reader for that text.
- `scouting.dfy` (`ScoutingTask`): the warning decision, the choice of the
  next block, the embed fields, the title, the message, and the iteration
  itself (`HandleBlock`, `Cycle`).

Times are BSON date-times: integer milliseconds since the Unix epoch. The
outcomes of the I/O calls are inputs to `Cycle`:

- `fetched` is the result of `find_all_populated`, an error or the blocks in
  the order the query returns them.
- `update` is the database's reply to `update_one`.
- `send` is the chat platform's reply to `send_message`.

`Cycle` returns the message it posted, if any, and whether the loop goes on
or the task stops.

The flag is recorded before the message is sent: the update happens at
src/main.rs:139 or 143, and the send at src/main.rs:150-232. Every `?` ends
the task: the fetch (src/main.rs:116), either flag update (src/main.rs:139,
143) and the send (src/main.rs:232), each with its own error.

## Model

| member | source | states |
|---|---|---|
| `Mention.PingStr` | src/main.rs:237-239 | the mention token for an id is three characters longer than the id |
| `Mention.ParseJoinMentions` | src/main.rs:237-239 | round trip: for ids without `>`, reading back the concatenated mention tokens gives exactly the ids, in order |
| `Mention.JoinMentionsLength` | src/models.rs:127-150 | the concatenated mentions are as long as the sum of each id's length plus three |
| `Mention.JoinMentionsEmpty` | src/models.rs:130-147 | the concatenated mentions are empty if and only if there are no ids |
| `Models.WithFlag` | src/models.rs:102 | after `$set`, the named flag is true, the other flag keeps its value, and every other field of the record is unchanged |
| `Models.SetFlag` | src/models.rs:99-104 | the update filtered on `_id` keeps the set of records and every record with another id; the matching record, if present, gets the flag |
| `Models.SetFlagMonotone` | src/models.rs:99-104 | setting a flag never clears one, on any record |
| `Models.SetFlagIdempotent` | src/models.rs:99-104 | setting the same flag twice leaves the collection as setting it once |
| `Models.Store.UpdateOne` | src/models.rs:99-105 | an acknowledged update applies `SetFlag` and returns Ok; a failed one returns its error and leaves the collection unchanged; no document whose `_id` field differs from the filter's is touched; records stay filed under their own `_id` |
| `Models.PopulatedScheduleBlock.constructor` | src/models.rs:44-65 | a populated block holds the id, the times, the six slots in order and both flags it was given |
| `Models.PopulatedScheduleBlock.UpdateMin30` | src/models.rs:95-109 | the store gets `min30` on the block's `_id` exactly when the update succeeds; the in-memory `min30` becomes true only then; `min10` is untouched; the driver's error is passed on |
| `Models.PopulatedScheduleBlock.UpdateMin10` | src/models.rs:111-125 | the same for `min10`, leaving `min30` untouched |
| `Models.PopulatedScheduleBlock.Pings` | src/models.rs:127-150 | the mention string is the concatenation of `ping_str` of the filled slots' chat ids, in slot order; empty slots add nothing |
| `Models.FilledIdsEmpty` | src/models.rs:130-147 | the filled slots yield no id if and only if every slot is empty |
| `Models.PingsLength` | src/models.rs:127-150 | the mention string's length is the sum over filled slots of the chat id's length plus three |
| `Models.PingsEmpty` | src/models.rs:127-150 | the mention string is empty if and only if all six slots are empty |
| `Models.PingsReadBack` | src/models.rs:127-150 | reading the mention string back gives the filled slots' chat ids in slot order |
| `CompTime.WestOpt` | src/main.rs:20 | a zone west of UTC by less than a day has the opposite offset east; any other is refused |
| `CompTime.CompOffset` | src/main.rs:13-21 | the competition zone is 4 hours west of UTC, and the `unwrap` cannot fail |
| `CompTime.LocalClock` | src/main.rs:214-228 | the hour (0-23) and minute (0-59) shown for an instant are its wall-clock minute in UTC−4: the local time, less that minute, leaves under a minute modulo whole days |
| `CompTime.ShowsInstantUnique` | src/main.rs:214-228 | no other hour and minute fit the instant |
| `CompTime.TwoDigits` | src/main.rs:221 | a number below 100 is printed as two decimal digits, zero-padded, whose value is the number |
| `CompTime.ClockText` | src/main.rs:216-227 | the `%H:%M` text has five characters with `:` in the middle |
| `CompTime.ClockTextReadsBack` | src/main.rs:214-228 | round trip: the `HH:MM` text reads back as the instant's wall-clock hour and minute in UTC−4 |
| `ScoutingTask.Decide` | src/main.rs:135-148 | the far warning fires exactly when the block is at most 30 minutes away and `min30` is unset; the near warning fires only when the block is at most 10 minutes away, `min30` is already set and `min10` is not; it always fires when the block is at most 10 minutes away and `min10` is unset; otherwise nothing fires |
| `ScoutingTask.NearWarningScenario` | src/main.rs:137-144 | a block 25 minutes away with the far warning sent gets no warning; at 9 minutes it gets the near warning |
| `ScoutingTask.FlooredNowDecidesAlike` | src/main.rs:114-137 | comparing whole-millisecond block times against `now` floored to milliseconds gives the same "ahead" and "within the limit" answers as the finer clock |
| `ScoutingTask.Raise` | src/main.rs:137-144 | recording a warning never clears a flag |
| `ScoutingTask.CycleWarning` | src/main.rs:125-148 | an iteration that picks a block with no scouters sends no warning; otherwise the priority chain decides |
| `ScoutingTask.Warnings` | src/main.rs:112-148 | the warnings a block receives over successive iterations that pick it, each with or without scouters: one `CycleWarning` per iteration, flags carried over |
| `ScoutingTask.WarningsAtMostOnce` | src/main.rs:125-148 | over any run of iterations, staffed or not, each warning goes out at most once per block, and never once its flag is set |
| `ScoutingTask.NearFollowsFar` | src/main.rs:125-148 | over any run of iterations, staffed or not, for a block whose far flag is unset, every near warning comes after a far warning |
| `ScoutingTask.NextIndex` | src/main.rs:115-121 | the chosen block is the first in the given order that starts strictly after now; there is none exactly when every block starts at or before now |
| `ScoutingTask.NextIsEarliest` | src/main.rs:117-121 | with the blocks in ascending start order, the chosen block starts no later than any block still ahead |
| `ScoutingTask.NextBlock` | src/main.rs:115-121 | the scan returns the block `NextIndex` designates, or none |
| `ScoutingTask.NoScoutersNoMentions` | src/main.rs:125-133 | a block has no scouters if and only if its mention string is empty |
| `ScoutingTask.Fields` | src/main.rs:153-211 | the embed has exactly six fields; field i belongs to slot i with role blue 1, blue 2, blue 3, red 1, red 2, red 3 |
| `ScoutingTask.FieldShowsSlot` | src/main.rs:153-211 | a field reads "You are scouting <role>" if and only if its slot is filled, with the user's first and last name; otherwise "No One 😔" / "Is scouting <role>"; no field is inline |
| `ScoutingTask.Title` | src/main.rs:214-228 | the title is "Scouters for ", the start's `HH:MM`, " - ", the end's `HH:MM`, ", in " and the warning wording, at fixed positions |
| `ScoutingTask.TitleReadsBack` | src/main.rs:214-228 | the title's times read back as the block's start and end on the UTC−4 wall clock |
| `ScoutingTask.Notification` | src/main.rs:150-232 | the message's content is the block's mention string and its embed carries the six fields and the title |
| `ScoutingTask.HandleBlock` | src/main.rs:123-233 | a block without scouters, or with no warning due, changes no flag and sends nothing; otherwise exactly the due warning's flag is set in the store and on the block if the update succeeds; a failed update stops the task and sends nothing; a message is sent only after its flag was recorded; a failed send stops the task |
| `ScoutingTask.HandledIsCycleWarning` | src/main.rs:123-233 | an iteration with an acknowledged update moves the block's flags exactly as one step of `Warnings` does, and sends a message, worded for that warning, exactly when the step yields one |
| `ScoutingTask.Cycle` | src/main.rs:112-233 | a failed fetch stops the task; with no block ahead nothing happens; otherwise the first block ahead is handled as above, and no other block's flags change |

## Left out

- The aggregation pipeline (src/aggregation.rs) and `find_all_populated`'s deserialisation: the fetch is an input to `Cycle`, already populated and in the query's order. The ascending `$sort` is a precondition of `NextIsEarliest`.
- The `expect` panic when a fetched document does not deserialise (src/models.rs:88): the fetched blocks are taken as well-formed.
- `ScheduleBlock::find_all` (src/models.rs:68-72): the loop does not call it.
- src/tba.rs: an HTTP call to the match API, not used by this loop.
- The chat platform (poise/serenity): the `ping` command, command registration, and the rendering and delivery of the message. The send is modelled as producing a `Message` value, and its outcome is an input.
- Configuration and startup (`lazy_static`, environment variables, `dotenvy`, the Mongo client), `tokio::spawn` and the three-second sleep. One iteration is modelled, not the task or its timing.
- chrono's `TimeZone` plumbing (src/main.rs:24-46): the offset is applied directly.
- `Models.Store.UpdateOne`: the model assumes a failed `update_one` wrote nothing. The driver may report an error for a write that took effect; that case is not modelled.
- Integer widths: times are unbounded integers. The model does not cover i64 overflow or the clamping of date-times outside chrono's range (about ±262,000 years).
- `ScoutingTask.Cycle`: `now` is in whole milliseconds. `FlooredNowDecidesAlike` shows this gives the same decisions as a nanosecond clock.
- `Models.PopulatedScheduleBlock.Pings`: the string's initial capacity (`24 * 6`) affects only allocation, so it is not modelled.
- The embed's colour and footer are constants of the message and nothing is proved about them.
- The source text shows the empty-slot name and the footer as `No One ðŸ˜”` and `oxidized ðŸ¦€` (src/main.rs:160-210, 229). These are the UTF-8 bytes of U+1F614 and U+1F980 misread as Windows-1252, so the model reads them as those two emoji.
