# guildMemberUpdate decision logic, in Dafny

A verified model of the decision logic in the member-update handler of the
Boolean moderation bot (`src/events/guildMemberUpdate.ts`). When a guild member
changes, the handler compares the old and new member snapshots with the latest
audit-log entry of the guild and picks at most one cause, first match wins:

1. an old snapshot that is only partially known: nothing;
2. a latest entry with action `MEMBER_ROLE_UPDATE`: a role added (first change
   key `$add`) or removed (`$remove`), silenced when the executor is a bot; any
   other first key gives nothing, without falling through to the later tests;
3. differing nicknames: a nickname change;
4. the new member timed out, the old one not, and an entry present: a timeout.

It then renders the log-channel text (role descriptions, nickname fields with
the `"Null"` placeholder, console lines) or the timeout direct message (reason
line cut to 500 characters, `1d2h3m`-style duration, relative end time).

Modules:

- `Wrappers` (`wrappers.dfy`): `Option` for JavaScript `null`/`undefined`, `Result` for a run that throws.
- `Text` (`text.dfy`): decimal rendering of integers as a template literal prints them, its inverse reader, `slice(0, n)`.
- `Duration` (`duration.dfy`): `Math.round` to minutes, JavaScript's truncating `%`, the day/hour/minute table, the filter/flat/join formatting and a reader that inverts it.
- `Classifier` (`classifier.dfy`): the snapshot and audit-entry data, the cause datatype and `Classify`.
- `Render` (`render.dfy`): the notification texts and `Handle`, which classifies then renders.

A role-update entry whose first change key is neither `$add` nor `$remove`
gives no cause: the nickname and timeout tests sit in `else if` branches of the
role-update test (lines 28, 54, 61), so such an entry does not fall through to
them (`Classifier.OtherRoleUpdateIsSilent`). A role change whose executor is
absent is still reported (`executor?.bot` is `undefined`), and its tag and id
print as `undefined`.

## Model

| member | source | states |
|---|---|---|
| Classifier.Classify | src/events/guildMemberUpdate.ts:20-65 | a partial old snapshot gives no cause; after a role-update entry the result is never a nickname change or a timeout; a role change is reported only for a role-update entry whose executor is not a bot; a run throws only on a role update |
| Classifier.IsCommunicationDisabled | src/events/guildMemberUpdate.ts:62-63 | a member counts as timed out only while its timeout end is present and later than `now`; no end (or end 0) means not timed out; a member timed out now was timed out at every earlier moment |
| Classifier.ClassifyRoleUpdate | src/events/guildMemberUpdate.ts:28-51 | the role branch never yields a nickname change or a timeout; an added (removed) role needs first key `$add` (`$remove`) and an executor that is not a bot; a reported change carries the entry's executor and target; any other first key gives no cause |
| Classifier.TimeoutCause | src/events/guildMemberUpdate.ts:66-80 | the timeout names the new member, the entry's executor and the timeout end; its minutes are the span from the entry to the end rounded to the nearest minute; its reason is present exactly when the entry's is, and is a prefix of it of length min(len, 500) |
| Classifier.RoleSubject | src/events/guildMemberUpdate.ts:35-50 | the role branch succeeds exactly when the entry has a target and the first change lists a role; then it takes that target and element 0 of the list |
| Classifier.RoleAddedIff | src/events/guildMemberUpdate.ts:28-40 | RoleAdded with target t, executor x and role r is produced if and only if the entry is a non-bot role update with first key `$add`, target t, executor x and first new role r |
| Classifier.RoleRemovedIff | src/events/guildMemberUpdate.ts:42-51 | the same characterisation for `$remove` and RoleRemoved |
| Classifier.BotRoleUpdateIsSilent | src/events/guildMemberUpdate.ts:32-44 | a `$add` or `$remove` role update made by a bot gives no cause, whatever the snapshots say |
| Classifier.OtherRoleUpdateIsSilent | src/events/guildMemberUpdate.ts:28-61 | a role update whose first change key is neither `$add` nor `$remove` gives no cause, even when nicknames differ or a timeout was applied |
| Classifier.NicknameChangedIff | src/events/guildMemberUpdate.ts:53-60 | a nickname change with member u and nicknames a, b is produced if and only if the old snapshot is whole, no role update came first, the nicknames differ, u is the new member and a, b are the old and new nicknames |
| Classifier.NicknamePrecedesTimeout | src/events/guildMemberUpdate.ts:54-65 | when nicknames differ and a timeout was also applied, the nickname change is the result |
| Classifier.TimedOutIff | src/events/guildMemberUpdate.ts:61-80 | a timeout is produced if and only if all earlier tests fail, the new member is timed out, the old was not and an entry exists; it carries the span rounded to the nearest minute and a reason that is a prefix of at most 500 characters of the entry's reason |
| Classifier.FaultIff | src/events/guildMemberUpdate.ts:98-134 | the run throws exactly for a non-bot `$add`/`$remove` role update whose entry has no target or whose change lists no role (`target.tag`, `role[0].id`) |
| Duration.RoundedMinutes | src/events/guildMemberUpdate.ts:66-70 | the minute count is within half a minute of the span: m*60000 - 30000 <= ms < m*60000 + 30000; non-negative for a non-negative span |
| Duration.JsRem | src/events/guildMemberUpdate.ts:73-74 | the remainder has the dividend's sign, is smaller than the divisor in magnitude, and rebuilds the dividend with the quotient rounded toward zero |
| Duration.NonZero | src/events/guildMemberUpdate.ts:76-77 | the kept components are exactly the non-zero ones of the table; a single component is kept exactly when it is non-zero |
| Duration.NonZeroAppend | src/events/guildMemberUpdate.ts:76-77 | filtering a concatenation is the concatenation of the filtered parts, so the kept components stay in the table's order |
| Duration.Decompose | src/events/guildMemberUpdate.ts:71-75 | for M >= 0: days*1440 + hours*60 + minutes == M with 0 <= hours < 24 and 0 <= minutes < 60 |
| Duration.Components | src/events/guildMemberUpdate.ts:71-75 | the table has three rows with suffixes `d`, `h`, `m`; -24 <= hours < 24 and -60 < minutes < 60; all amounts are non-negative for M >= 0 and non-positive (days negative) for M < 0 |
| Duration.JoinOne | src/events/guildMemberUpdate.ts:78-79 | `Duration.Join` models `flat().join("")`; one component joins to its amount printed as an integer, then its suffix |
| Duration.JoinAppend | src/events/guildMemberUpdate.ts:78-79 | joining a concatenation is the concatenation of the joined parts; with `JoinOne` this fixes `Duration.Join` on every list, components in order |
| Duration.FormatDuration | src/events/guildMemberUpdate.ts:71-79 | for M >= 0 the text is the day, hour and minute pieces in that order, each an amount and its suffix and empty when the amount is 0 |
| Duration.FormatRoundTrip | src/events/guildMemberUpdate.ts:71-79 | reading the formatted text of M >= 0 gives back M, so distinct counts never show the same |
| Duration.FormatEmptyIffZero | src/events/guildMemberUpdate.ts:76-79 | for M >= 0 the text is empty exactly when M is 0 |
| Duration.NinetyMinutes | src/events/guildMemberUpdate.ts:71-79 | 90 minutes shows as `1h30m` |
| Duration.OneDay | src/events/guildMemberUpdate.ts:71-79 | 1440 minutes shows as `1d` |
| Duration.Zero | src/events/guildMemberUpdate.ts:71-79 | 0 minutes shows as the empty string |
| Duration.NegativeNinetyMinutes | src/events/guildMemberUpdate.ts:66-79 | with no guard against a negative span, -90 minutes shows as `-1d-2h-30m` |
| Text.NatToString | src/events/guildMemberUpdate.ts:78-79 | an amount prints as a non-empty run of digits without a leading zero |
| Text.IntToString | src/events/guildMemberUpdate.ts:78-79 | a negative amount prints as a minus sign before its magnitude |
| Text.ValueOfNatToString | src/events/guildMemberUpdate.ts:78-79 | reading the printed digits gives back the amount |
| Text.Slice | src/events/guildMemberUpdate.ts:80 | `slice(0, n)` is the prefix of length min(len, n), the whole string when it is short enough |
| Render.ReasonField | src/events/guildMemberUpdate.ts:81 | empty exactly for an absent or empty reason; otherwise `Reason: *`, the reason, `*` |
| Render.ReasonShown | src/events/guildMemberUpdate.ts:80-81 | the reason line shows the first min(len, 500) characters of the audit reason, and nothing for an absent or empty one |
| Render.EpochSeconds | src/events/guildMemberUpdate.ts:87-88 | the seconds s satisfy s*1000 <= until < s*1000 + 1000 |
| Render.MentionOrNull | src/events/guildMemberUpdate.ts:86 | `${lastLog.executor}` is the executor's mention `<@id>` when present, and the text is `null` exactly when it is absent |
| Render.RelativeTime | src/events/guildMemberUpdate.ts:87-89 | the markup is `<t:`, digits, `:R>`; for a non-negative end the digits read back as the seconds s with s*1000 <= end < s*1000 + 1000 |
| Render.TimeoutText | src/events/guildMemberUpdate.ts:84-92 | the direct message contains the reason line, the moderator line and the duration line with the relative end time, and ends with the appeal-form line |
| Render.TimeoutScenario | src/events/guildMemberUpdate.ts:61-93 | a timeout ending 5 400 000 ms after the entry, reason `spam`, sends the member the message for 90 minutes and reason `spam` |
| Render.TimeoutScenarioText | src/events/guildMemberUpdate.ts:84-92 | that message contains `Reason: *spam*` and `Duration: 1h30m (` followed by the relative end time |
| Render.NicknameFieldValue | src/events/guildMemberUpdate.ts:165-171 | an absent nickname is shown as `Null`, a present one unchanged |
| Render.NicknameText | src/events/guildMemberUpdate.ts:183 | in the console line a present nickname prints unchanged, and the text is `null` exactly when the nickname is absent or is itself `null` |
| Render.NicknameFieldCollision | src/events/guildMemberUpdate.ts:165-183 | two nicknames show the same field value exactly when equal or when one is absent and the other is `Null`; the console line tells those apart |
| Render.NicknameScenario | src/events/guildMemberUpdate.ts:53-171 | old `Al`, new `Alex`, no role update: the log embed fields are `Old Nickname: Al` and `New Nickname: Alex` |
| Render.RoleText | src/events/guildMemberUpdate.ts:107-134 | the shared role-text layout opens with the moderator's tag and mention and the verb, names the role and the target, and ends with the target's tag and mention |
| Render.RoleAddedText | src/events/guildMemberUpdate.ts:107-121 | the grant text opens with the moderator part and `added `, names the role and the target, and ends with `tag(<@id>)` of the target |
| Render.RoleRemovedText | src/events/guildMemberUpdate.ts:134-148 | the revocation text opens with the moderator part and `removed `, names the role and the target, and ends with the target part |
| Render.RoleTexts | src/events/guildMemberUpdate.ts:104-134 | both role descriptions open with the moderator's tag and mention, mention the role and the target, and the added and removed texts never coincide |
| Render.RoleAddedExample | src/events/guildMemberUpdate.ts:107 | moderator `Mod#2` (id 2) granting role 3 to `Bob#1` (id 1) reads `Mod#2(<@2>) added <@&3> to Bob#1(<@1>)` |
| Render.RoleRemovedExample | src/events/guildMemberUpdate.ts:134 | with no executor, revoking role 3 from `Bob#1` reads `undefined(<@undefined>) removed <@&3> from Bob#1(<@1>)` |
| Render.Notify | src/events/guildMemberUpdate.ts:35-185 | nothing is sent exactly for no cause; a role grant or revocation logs its role text as both description and console line, with no fields; a nickname change logs the `Old Nickname`/`New Nickname` fields with the `Null` placeholder and the console line `tag changed their nickname from a to b` with `null` for an absent nickname; a timeout sends the timeout text to the timed-out member |
| Render.Handle | src/events/guildMemberUpdate.ts:20-94 | a partial old snapshot sends nothing; a direct message goes only to a member newly timed out, and only when an audit entry exists |

## Left out

- The discord.js calls are inputs, not modelled: `newMember.fetch()` (the new snapshot is taken as already whole), `fetchAuditLogs` (its first entry is the `lastLog` parameter), `newMember.send`, `client.channels.cache.get` and `client.logger.*`.
- The current time read by discord.js's `isCommunicationDisabled()` is the parameter `now`; the test is modelled as "the timeout end is present and later than `now`", since that library method is not part of this model.
- A failed fetch, and the swallowed failure of the direct-message send (line 93): I/O error handling; the send's outcome is ignored.
- Embed cosmetics: colours, titles, footer text and icon, author line, avatars, `setTimestamp`. The embed is reduced to its description and fields.
- `config.logChannelId` and the `TypedEvent` registration: configuration and event-bus plumbing.
- Floating point: `Math.round` and `Math.floor` are modelled on integer milliseconds; spans beyond 2^53 ms and fractional timestamps are not.
- Strings are sequences of characters; JavaScript's UTF-16 code units (which `slice` counts) are not distinguished from characters.
- `User.toString()` is modelled as the mention `<@id>`; an absent executor prints `null`.
- Only the data the handler reads is modelled: a change's `new` value is a list of roles, each with an id.
