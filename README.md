# Ticket bot core, modelled in Dafny

A chat-server support bot that runs help tickets as threads. A member opens a
ticket in the support channel (a private thread) or the public channel (a public
thread). Staff with an admin role are added to the thread. The ticket then goes
through close (with a "yes" confirmation and, for public tickets, a solved or
rejected vote), reopen, claim and unclaim, status changes, adding and removing
members, conversion to private and escalation. Every ticket is a row in a
SQLite `tickets` table. A `blacklist` table bars members from opening tickets.
A runtime configuration holds the channel and role ids and a few tunables that
admins may change. Closing posts plain-text and HTML transcripts to a log
channel.

The model has one module per source file:

| module | source | form |
|---|---|---|
| `Wrappers` | — | `Option`, `Result` |
| `Text` | Python `str` methods the core uses | functions and lemmas: `strip`, `lower`, `split`/`join`, `int()`, `str()` |
| `Platform` | the chat objects the bot touches | `Member`, `Guild`, `Message`, `Emoji` values; `class Thread` for the thread whose name, flags and members the bot edits |
| `Permissions` | utils/permissions.py | pure predicates |
| `Metrics` | utils/metrics.py | `class Metrics` with a counter map |
| `Config` | config.py | parsing as functions; `class ConfigModule` for the memoised global |
| `Database` | database.py | row queries as functions; `class Database` with `tickets` and `blacklist` fields |
| `Transcripts` | transcripts.py | serialisers as functions, with loop methods proved equal to them |
| `Tickets` | cogs/tickets.py | `class TicketCog` with one method per command; pure helpers beside it |
| `Admin` | cogs/admin.py | `class AdminCog` with one method per subcommand; coercion as a function |

Modelling choices:

- Rows are read by position in the source. Here they have named fields in the
  column order of database.py:7-18.
- The `tickets` table is a sequence in insertion (id) order. `duplicate_check`
  reads it `ORDER BY id DESC`, so that order matters. Thread ids are unique (the
  `UNIQUE` constraint), as an invariant of `Database.Valid`.
- Every `UPDATE ... WHERE thread_id=?` is a `Change` applied to every matching
  row by `UpdateWhere`.
- `time.time()` is a `now` parameter. The fuzzy ratio and `float()` are
  function parameters.
- The new thread's id is a parameter.
- The messages the bot posts in a thread (the greeting of `ticket_open`, the
  close prompt and the vote message of `ticket_close`) are appended to the
  thread's history, so they reach the transcripts and the in-progress
  reaction. Their author and creation time come as a `Stamp` parameter.
- The two human waits of `ticket_close` are the sequences of events that
  arrive before the timeout. The wait takes the first event its check accepts,
  and an empty match is a timeout.
- The two resolution emoji are the opaque symbols `CheckMark` and `CrossMark`.
  The in-progress reaction is `Tools`.

The model follows the code where it departs from the evident design:

- **Claim and unclaim read the wrong column.** Their guards read
  `record[10]`, which is `last_user_message_at`, not `claimed_by`.
  `TicketClaim` and `TicketUnclaim` are written against `lastUserMessageAt`.
  `FreshTicketRefusesClaim` proves the consequence: a ticket opened at a
  non-zero time is refused by claim although nobody has claimed it.
- **`closed_at` is not kept in step with the status.** `update_status` (used by
  reopen and `ticket_status`) never touches `closed_at`
  (`StatusChangeKeepsClosedAt`). Only a close sets it (`CloseSetsClosedAt`).
- **`normalize_name` is not idempotent in general.**
  - It is when the name, once stripped, has no further leading prefix or space
    (`NormalizeNameLastWins` with equal statuses).
  - `NormalizeNameStackedPrefixes` and `NormalizeNameLeadingSpace` give names
    whose second normalisation differs from the first.
- **Conversion checks roles only.** `ticket_convert` keeps admin-role holders,
  not members who have only the administrator flag.
- **Bots are not skipped on removal.** `remove_admins` also targets bots, once
  per listed role a member holds.

## Model

| member | source | states |
|---|---|---|
| Tickets.PrefixListed | cogs/tickets.py:14-20 | every status's prefix is one of the five `STATUS_PREFIXES` values, at a known position of the dict order |
| Tickets.PrefixForListed | cogs/tickets.py:81 | whatever the target status, the prefix put on the name is one of the five listed values, the empty one for an unknown key |
| Tickets.StripBareName | cogs/tickets.py:76-80 | a name starting with no known prefix passes the strip loop unchanged |
| Tickets.StripPrefixed | cogs/tickets.py:76-80 | a known prefix, a space and a bare base strip back to exactly that base |
| Tickets.StripRetitled | cogs/tickets.py:76-82 | retitling a name with a known prefix does not change what the strip loop leaves of it |
| Tickets.RetitleLastWins | cogs/tickets.py:76-82 | retitling twice equals retitling once with the second prefix |
| Tickets.NormalizeNameLastWins | cogs/tickets.py:76-82 | when the stripped name is bare, normalising to one status then another equals normalising to the second; with equal statuses this is idempotence |
| Tickets.NormalizeNameStackedPrefixes | cogs/tickets.py:76-82 | "[Closed] [Closed] t" normalised to solved keeps one "[Closed]", and normalising again drops it: not idempotent |
| Tickets.NormalizeNameLeadingSpace | cogs/tickets.py:76-82 | a name with a leading space changes on its second normalisation to solved |
| Tickets.AdminMemberIdsSpec | cogs/tickets.py:46-54 | an id is gathered by `add_admins` iff it belongs to a non-bot guild member holding a listed role that the guild has |
| Tickets.AddAdmins | cogs/tickets.py:46-62 | the thread's members become the old members plus exactly the gathered admin ids; name, flags and history unchanged |
| Tickets.RemovalIdsTargeted | cogs/tickets.py:64-74 | an id leaves the thread iff `remove_admins` targets it at least once |
| Tickets.AddedAdminsAreRemoved | cogs/tickets.py:46-74 | everyone `add_admins` adds, `remove_admins` removes |
| Tickets.BotAdminIsRemoved | cogs/tickets.py:64-74 | a bot holding a listed role is removed too (no bot filter) |
| Tickets.RemovalTargetedOnce | cogs/tickets.py:64-74 | a holder of a listed, existing role is targeted at least once |
| Tickets.RemovalTargetedPerRole | cogs/tickets.py:64-74 | a member holding two listed roles is targeted at least twice |
| Tickets.RemoveAdmins | cogs/tickets.py:64-74 | returns the multiset of removal attempts and leaves the thread with the old members minus the targeted ids |
| Tickets.KeptOnConvertIgnoresFlag | cogs/tickets.py:348-354 | for a guild member, convert keeps exactly bots, the creator and admin-role holders; the administrator flag plays no part |
| Tickets.ConvertRemovals | cogs/tickets.py:344-358 | after the member loop the thread's members are exactly the old members that convert keeps |
| Tickets.FirstDuplicateSpec | cogs/tickets.py:94-100 | no match iff every recent title scores below the threshold; a match is the first title in recency order that reaches it, with its score |
| Tickets.DuplicateCheck | cogs/tickets.py:94-100 | the loop returns the first qualifying title and score, else `(None, 0)` |
| Tickets.TruncateTitle | cogs/tickets.py:116-117 | the result is a prefix of the title, the whole title when it fits, never longer than a non-negative limit, with Python slice semantics for a negative one |
| Tickets.FirstConfirmation | cogs/tickets.py:152-160 | the wait yields nothing iff no reply is from the invoker in the thread, else the first such reply |
| Tickets.ThreadPostsMembers | cogs/tickets.py:152-160 | a message is among the thread's posts iff some reply posted in that thread carries it |
| Tickets.WaitPostsConfirmed | cogs/tickets.py:152-160 | a confirmed wait adds the thread's posts up to and including the invoker's reply, which is the last message added |
| Tickets.WaitPostsTimedOut | cogs/tickets.py:152-160 | a wait that times out adds every message posted in the thread meanwhile |
| Tickets.FirstVote | cogs/tickets.py:180-186 | the wait yields nothing iff no reaction is on the vote message, is a resolution emoji, and is by a guild member who is the creator or an admin; else the first one |
| Tickets.VoteOutcome | cogs/tickets.py:180-189 | the outcome is solved, rejected or closed; closed iff no qualifying reaction; otherwise the emoji of the first qualifying one decides |
| Tickets.TicketCog.EnsureTicketRecord | cogs/tickets.py:88-92 | inserts the new open row and counts `tickets_created` once when the thread has no row; otherwise changes nothing |
| Tickets.TicketCog.OpenThread | cogs/tickets.py:124-136 | a fresh unlocked thread under the invoking channel with the author (private only) and the admins as members, the greeting as its only message, and the row ensured |
| Tickets.TicketCog.OpenChecked | cogs/tickets.py:121-138 | past the checks: the reply carries the new thread's id, its privacy, whether the title was cut and the first-duplicate note over the recent titles; the thread holds the greeting for its privacy with the author's mention and that note; the thread and row are those of `OpenThread` |
| Tickets.TicketCog.TicketOpen | cogs/tickets.py:108-138 | blacklisted, blank-title and wrong-channel refusals each hold iff their condition (in that order) and write nothing; otherwise a thread named by the truncated title, private iff opened in the support channel, with the first-duplicate note, the greeting (private or public wording, with that note) as its only message, and at most one insert and one metric increment |
| Tickets.TicketCog.LogTranscripts | cogs/tickets.py:170-173 | both transcript files are posted iff the log channel exists |
| Tickets.TicketCog.ClosePrivate | cogs/tickets.py:161-174 | the admins and the creator (when still a guild member) leave, the thread is locked and archived, the row is closed as closed |
| Tickets.TicketCog.ClosePublic | cogs/tickets.py:176-198 | the admins leave, the vote message (with both resolution reactions) is appended to the history, the thread takes the given name (the caller passes it normalised to the outcome), is locked and archived, and the row is closed with the outcome |
| Tickets.TicketCog.CloseConfirmed | cogs/tickets.py:161-198 | a private row closes as closed and a public one as the vote decides, with the row, thread and transcript effects above; only the public close adds the vote message to the history the transcripts are built from |
| Tickets.CloseRefusal | cogs/tickets.py:142-160 | the close goes ahead iff there is a row, the author can manage it, and the invoker's first reply lowercases to exactly "yes"; otherwise one of the four refusals |
| Tickets.TicketCog.TicketClose | cogs/tickets.py:140-198 | a refusal changes no row and no thread field but the history; the history gains the close prompt and the wait's posts once the author may manage the ticket (on a timeout, a "no" and a confirmed close alike); a confirmed close then has exactly the `CloseConfirmed` effects, so its transcripts hold the prompt, the invoker's "yes" and, when public, the vote message |
| Tickets.ReopenRefusal | cogs/tickets.py:202-212 | reopen proceeds iff the row exists, is public, can be managed by the author and has a finished status; a private row is refused as such |
| Tickets.TicketCog.ReopenThread | cogs/tickets.py:213-217 | the thread is unlocked and unarchived, takes the given name and gains the admins, its history kept; the row's status becomes open |
| Tickets.TicketCog.TicketReopen | cogs/tickets.py:200-219 | a refusal changes nothing; otherwise the thread is unlocked, unarchived, stripped of its prefix and given the admins, and the row's status becomes open |
| Tickets.StaffRefusal | cogs/tickets.py:225-228 | the staff commands proceed iff the author is an admin and the thread has a row; a non-admin is refused first |
| Tickets.TicketCog.TicketClaim | cogs/tickets.py:221-235 | a truthy `last_user_message_at` refuses with that value and writes nothing; otherwise `claimed_by` becomes the author |
| Tickets.TicketCog.TicketUnclaim | cogs/tickets.py:237-251 | refuses a falsy `last_user_message_at`, and one that differs from the author's id when the author lacks the administrator flag; otherwise `claimed_by` becomes null |
| Tickets.TicketCog.TicketAddUser | cogs/tickets.py:253-267 | only a private row's thread gains the member; a refusal or platform failure changes nothing |
| Tickets.TicketCog.TicketRemoveUser | cogs/tickets.py:269-285 | only a private row's thread loses the member, never the creator; a refusal or platform failure changes nothing |
| Tickets.TicketCog.TicketListMine | cogs/tickets.py:287-298 | no entries iff the author has no open or in-progress ticket in the guild; otherwise the first ten as (thread id, status) |
| Tickets.MarkInProgress | cogs/tickets.py:316-324 | the oldest message gains the tools reaction exactly for in_progress; every other message is kept |
| Tickets.InProgressMarksGreeting | cogs/tickets.py:316-322 | on a fresh ticket, whose thread holds only the greeting, in_progress puts the tools reaction on the greeting |
| Tickets.StatusRefusal | cogs/tickets.py:304-311 | staff-only iff the author is no admin; an invalid status iff an admin names a key that is none of the five; no refusal iff an admin names a valid key on a thread with a row |
| Tickets.TicketCog.SetStatus | cogs/tickets.py:313-324 | the row takes the new status, the thread the given name, and the first message gains the in-progress reaction only for in_progress; members, lock and archive flags are kept |
| Tickets.TicketCog.TicketStatus | cogs/tickets.py:300-327 | non-admins, keys other than the five statuses after lowercasing, and missing rows change nothing; otherwise the name, status and in-progress reaction follow the new status |
| Tickets.ConvertRefusal | cogs/tickets.py:333-339 | convert proceeds iff the author is an admin, the thread is public and the row exists and is not yet private |
| Tickets.TicketCog.TicketConvert | cogs/tickets.py:329-361 | a refusal changes nothing; otherwise the row becomes private and the thread keeps exactly the members convert keeps; the thread type stays as it was |
| Tickets.TicketCog.TicketEscalate | cogs/tickets.py:363-384 | no row, then no configured or existing escalation role, then no right to manage refuse in that order; otherwise the escalation role is pinged |
| Tickets.TicketCog.OnMessage | cogs/tickets.py:423-429 | a non-bot message in a thread stamps that thread's `last_user_message_at`; anything else writes nothing |
| Tickets.CloseSetsClosedAt | database.py:83-86 | after `close_ticket` the row has the final status and `closed_at` = `updated_at` = now, with claim and privacy unchanged |
| Tickets.StatusChangeKeepsClosedAt | database.py:75-77 | after `update_status` the row has the new status and its old `closed_at`, claim and privacy |
| Tickets.FreshTicketRefusesClaim | cogs/tickets.py:229-232 | a freshly inserted row has no claimant, yet its `last_user_message_at` is truthy, so claim refuses it |
| Tickets.ClaimUnclaimRoundTrip | database.py:79-81 | claiming then unclaiming leaves the row as before except `claimed_by` null and the timestamp |
| Database.StatusOfKeyOfStatus | cogs/tickets.py:14-20 | every status is read back from its key |
| Database.StatusOfKey | cogs/tickets.py:306-308 | a recognised key is the key of the status it names |
| Database.GetTicketByThread | database.py:88-89 | a row is found iff the thread has one, and it is a row of the table for that thread |
| Database.GetTicketByThreadFindsRow | database.py:88-89 | in a well-formed table the lookup of a row's thread finds that row |
| Database.GetTicketAfterInsert | database.py:68-73 | after inserting a row for a new thread, that thread finds it and every other lookup is as before |
| Database.Apply | database.py:75-106 | no update changes id, guild, thread, creator, title or creation time, and none makes a private row public |
| Database.UpdateWhere | database.py:75-106 | an update changes exactly the rows of that thread, each by the change |
| Database.UpdateKeepsTable | database.py:7-9 | updates keep ids ascending and thread ids unique |
| Database.UpdateUnknownThread | database.py:75-106 | an update on a thread without a row changes no row |
| Database.GetTicketAfterUpdate | database.py:75-106 | after an update the thread's row reads as the changed row and every other thread's as before |
| Database.PrivateStaysPrivate | database.py:75-106 | no update returns a private row to public |
| Database.ListOpenTicketsByUser | database.py:91-93 | exactly the rows of the guild and creator whose status is open or in_progress |
| Database.TicketsStale | database.py:98-102 | exactly the threads of matching guild, privacy and active status whose last user message is strictly before the threshold; a null time never qualifies |
| Database.ArchivePurgeCandidates | database.py:108-111 | exactly the threads of the guild with a finished status and a `closed_at` strictly before the threshold; a null `closed_at` never qualifies |
| Database.CountByStatus | database.py:95-96 | one group per status with rows in the guild, holding its row count |
| Database.StatusCountsSum | database.py:95-96 | the five status counts add up to the guild's row count |
| Database.CountCreatedAfter | cogs/admin.py:188-190 | the recent count never exceeds the guild's row count |
| Database.RecentTitles | cogs/tickets.py:95 | the titles of the last min(25, n) of the guild's n rows, the last row first |
| Database.RecentTitleOfGuild | cogs/tickets.py:95 | every recent title is the title of one of the guild's rows |
| Database.RecentTitlesNewestFirst | cogs/tickets.py:95 | the guild's rows are in ascending id order, so the titles are taken newest first |
| Database.Database.constructor | database.py:41-44 | a new store is well formed and empty |
| Database.Database.CreateTicket | database.py:68-73 | inserts the open row (created, updated and last-message times = now, no claim, no `closed_at`) iff the thread has no row; a duplicate thread changes nothing |
| Database.Database.UpdateStatus | database.py:75-77 | the thread's rows get the status and `updated_at`, nothing else changes |
| Database.Database.SetClaim | database.py:79-81 | the thread's rows get `claimed_by` and `updated_at`, nothing else changes |
| Database.Database.CloseTicket | database.py:83-86 | the thread's rows get the status and `closed_at` = `updated_at` = now |
| Database.Database.UpdateLastUserMessage | database.py:104-106 | the thread's rows get `last_user_message_at` = `updated_at` = now |
| Database.Database.MarkPrivate | cogs/tickets.py:342 | the thread's rows become private, nothing else changes |
| Database.Database.AddBlacklist | database.py:113-115 | upsert: the key has exactly one entry, with the new reason |
| Database.Database.RemoveBlacklist | cogs/admin.py:79 | exactly the (guild, user) entry goes |
| Permissions.IsAdmin | utils/permissions.py:4-7 | admin iff the administrator flag or some role id in the admin list |
| Permissions.AdminWithoutRoles | utils/permissions.py:4-7 | with no admin roles, admin iff the administrator flag |
| Permissions.CanManageTicket | utils/permissions.py:9-10 | can manage iff admin or the creator; the thread plays no part |
| Permissions.EscalateRole | utils/permissions.py:12-16 | a role iff the configured id is set, non-zero and a role of the guild, and then that id |
| Metrics.Metrics.constructor | utils/metrics.py:5-7 | every counter starts at 0 |
| Metrics.Bumped | utils/metrics.py:9-10 | the key's count rises by n, a missing key reading as 0; every other key's count is unchanged and the key is present afterwards |
| Metrics.Metrics.Incr | utils/metrics.py:9-10 | the key's counter rises by n, a missing key counting as 0; every other counter unchanged |
| Metrics.Metrics.Snapshot | utils/metrics.py:12-13 | the snapshot equals the counters |
| Metrics.SnapshotThenIncr | utils/metrics.py:12-13 | a snapshot taken before an increment keeps the old counts |
| Config.IntSetting | config.py:45-47 | an integer setting that `int()` rejects fails with its variable's name |
| Config.RoleIdsFrom | config.py:48 | the kept role ids are non-negative and no more than the pieces |
| Config.RoleIdsFromMembers | config.py:48 | an id is kept iff some piece, stripped of surrounding whitespace, is all digits with that value; every other piece is skipped |
| Config.RoleIdsFromAppend | config.py:48 | the filter keeps the pieces' order: the ids of two runs of pieces are the ids of the first, then of the second |
| Config.AdminRoleIdsOfEmpty | config.py:48 | an empty setting gives no admin roles |
| Config.RoleIdsFromStrings | config.py:48 | decimal pieces are all kept, in order |
| Config.AdminRoleIdsRoundTrip | config.py:48 | a comma-joined list of ids parses back to that list |
| Config.IntSettings | config.py:45-58 | the integer settings parse to one value per variable, each the `int()` of its own variable (or default) |
| Config.ParseConfigAdminRoles | config.py:48 | the loaded admin roles are the parsed `ADMIN_ROLE_IDS` |
| Config.ParseConfigEscalation | config.py:49 | `ESCALATION_ROLE_ID` parses, and the stored escalation role is None when it reads 0 and its value otherwise |
| Config.ParseConfigFlags | config.py:51-52 | `allow_anon_public` iff its value is "1" (default "0"); `dm_on_close` iff "1" (default "1"); the two runtime fields take their defaults |
| Config.ParseConfigFails | config.py:43-60 | loading fails iff an integer setting or the similarity does not parse |
| Config.AttrOf | config.py:9-27 | a key names an attribute only under that attribute's own name |
| Config.AttrOfName | config.py:9-27 | each attribute is found under its name |
| Config.SetAttrThenGet | config.py:70 | `setattr` then `getattr` reads the value back |
| Config.SetAttrKeepsOthers | config.py:70 | `setattr` leaves every other attribute alone |
| Config.ApplyAllKeepsUnnamed | config.py:66-70 | an attribute no keyword names keeps its value |
| Config.ApplyAllIgnoresUnknown | config.py:66-70 | keywords naming no attribute change nothing |
| Config.ApplySingle | config.py:66-70 | a single keyword sets exactly its attribute |
| Config.ToDict | config.py:29-35 | a key is present iff it names one of the four tunable attributes, and each maps to that attribute's value |
| Config.DictAttrScalar | config.py:29-35 | the four tunable attributes hold a bool, an int, a float or a string |
| Config.ConfigModule.constructor | config.py:37 | nothing is loaded at first |
| Config.ConfigModule.LoadConfig | config.py:39-61 | once loaded, the stored configuration is returned without parsing; before that the environment is parsed and kept on success |
| Config.ConfigModule.UpdateRuntimeConfig | config.py:66-70 | the loaded configuration becomes the in-order application of the keywords |
| Config.LoadTwice | config.py:39-42 | a second load returns what the first loaded, whatever the environment then says |
| Text.LStrip | cogs/tickets.py:80 | removes exactly the leading whitespace |
| Text.RStrip | cogs/tickets.py:114 | removes exactly the trailing whitespace |
| Text.StripEmptyIffAllSpace | cogs/tickets.py:114 | a title strips to empty iff it is all whitespace |
| Text.StripKeepsTrimmed | config.py:48 | a string without surrounding whitespace strips to itself |
| Text.Lower | cogs/tickets.py:157 | lowercases character by character |
| Text.JoinSplit | config.py:48 | joining the pieces of a split gives back the string |
| Text.SplitJoin | transcripts.py:13 | splitting a join of separator-free pieces gives back the pieces |
| Text.IntToStringParses | cogs/admin.py:50 | `int(str(n)) == n` |
| Text.ParseDecimal | config.py:48 | `int()` of an all-digit string is its decimal value |
| Text.ParseIntRejectsBlank | cogs/admin.py:50 | `int()` of a blank string raises |
| Transcripts.EscapeNewlines | transcripts.py:11 | the escaped content has no newline |
| Transcripts.EscapeNewlinesKeepsPlain | transcripts.py:11 | content without newlines is kept as it is |
| Transcripts.PlainLines | transcripts.py:8-12 | one line per message, in history order |
| Transcripts.ExportPlain | transcripts.py:6-13 | the loop builds exactly the newline-joined lines |
| Transcripts.PlainTextOneLinePerMessage | transcripts.py:11-13 | with newline-free authors and timestamps, splitting the text on newlines gives back one line per message |
| Transcripts.PlainLineNoNewline | transcripts.py:9-12 | a message whose author and timestamp hold no newline renders as a single line |
| Transcripts.EscapeCharSafe | transcripts.py:22-23 | no escaped character writes a bracket or a quote |
| Transcripts.HtmlEscape | transcripts.py:22-23 | escaped text has no raw `<`, `>`, `"` or `'` |
| Transcripts.HtmlEscapeRoundTrip | transcripts.py:22-23 | unescaping the five entities gives back the original text |
| Transcripts.MessagesHtml | transcripts.py:18-24 | five lines per message |
| Transcripts.MessagesHtmlAt | transcripts.py:20-24 | line j of message k sits at position 5k + j |
| Transcripts.HtmlBufferLayout | transcripts.py:16-25 | the head, the escaped title, the message lines, then the tail |
| Transcripts.HtmlBufferMessage | transcripts.py:20-24 | each message's five lines sit in order after the head and title |
| Transcripts.HtmlTextStart | transcripts.py:16-17 | the HTML starts with the fixed head and the escaped `<h1>` title |
| Transcripts.HtmlTextEnd | transcripts.py:25-26 | the HTML ends with `</body></html>` |
| Transcripts.ExportHtml | transcripts.py:15-26 | the loop builds exactly the newline-joined buffer |
| Transcripts.BuildTranscriptFiles | transcripts.py:28-34 | exactly two files, plain then HTML, named by the thread id |
| Admin.Coerce | cogs/admin.py:44-56 | bool (checked before int) never fails and is true iff the lowercased text is one of true/1/yes/on; int fails iff `int()` rejects; str is verbatim; a success keeps the value's type |
| Admin.CoerceIntRoundTrip | cogs/admin.py:49-50 | an integer typed as `str(n)` is stored as `n` |
| Admin.CoerceIntRejectsBlank | cogs/admin.py:49-56 | a blank input for an integer setting is an error |
| Admin.CoerceKeepsType | cogs/admin.py:45-57 | a successful coercion of a bool, int, float or string setting yields a value of that same type |
| Admin.ConfigSetChangesOnlyKey | cogs/admin.py:45-59 | a successful set changes exactly that attribute, to the coerced value |
| Admin.GuildBlacklist | cogs/admin.py:89 | exactly the blacklisted users of the guild, with their reasons |
| Admin.GroupCountIsCount | cogs/admin.py:183-200 | the 0 default for a missing group is that status's true count |
| Admin.BreakdownAddsUp | cogs/admin.py:178-201 | the five breakdown counts add up to the total |
| Admin.AdminCog.ConfigGet | cogs/admin.py:10-33 | non-admins are denied; no key or an empty one lists `to_dict`; a known key gives its value; another key is unknown |
| Admin.AdminCog.ConfigSet | cogs/admin.py:35-60 | non-admins, keys outside `to_dict` and failed coercions change nothing; otherwise exactly that key is updated with the coerced value |
| Admin.AdminCog.BlacklistAdd | cogs/admin.py:67-70 | non-admins change nothing; otherwise the entry holds the given reason, or "No reason provided" when none was given |
| Admin.AdminCog.BlacklistRemove | cogs/admin.py:77-80 | non-admins change nothing; otherwise exactly the (guild, user) entry goes |
| Admin.TakeEntries | cogs/admin.py:93 | min(n, limit) of the n entries, each user at most once, with its reason |
| Admin.AdminCog.BlacklistList | cogs/admin.py:87-100 | none iff the guild has no entries; otherwise min(entries, 20) distinct users with their reasons |
| Admin.AdminCog.Stats | cogs/admin.py:175-205 | the guild total, the count of the last 604800 s, and the five statuses in fixed order with their counts (0 when absent), adding up to the total |

## Left out

- Chat-platform I/O: the wording of the command replies, embeds, ephemeral flags, `send_log`, mentions and display names. Each command's answer is a `Reply`/`AdminReply` value.
- Platform failures during the admin fan-out, `remove_admins`, the creator's removal on close and convert's removals are caught by the source and ignored. In the model each of these calls takes effect. adduser/removeuser take the failure as a `platformError` input because there it changes the reply.
- Concurrency: the semaphore and `gather` of `add_admins`, the database lock, and the races between the bot's own reactions and the vote wait.
- Timers: the 15 s and 120 s waits become event sequences, and the command cooldown is not modelled.
- The background tasks `refresh_admins`, `stale_checker` and `archive_purge` are empty in the source.
- `help_tickets`, `perms_check`, the logging cog, health and bot bootstrap carry no ticket logic.
- `is_public` is modelled (`IsPublic`), but no command calls it in the source. `TicketOpen` proves that its public threads satisfy it.
- SQL engine details: connections, `INIT_SQL` and the unused `config_overrides` table.
- Tickets.DuplicateCheck: `token_set_ratio` is an uninterpreted ratio parameter, and the threshold is the configured `real`.
- Admin.Coerce: `float()` is an uninterpreted parser parameter.
- Text.ParseInt: ASCII digits only. Python's `int()` and `isdigit()` also take other Unicode digits.
- Tickets.ConvertRemovals: the thread's members are resolved through the guild's member map. A member the guild does not know is removed unless it is the creator.
- Tickets.TicketCog.TicketStatus: the reaction goes on the first message of the modelled history. A failed `add_reaction` is not modelled.
- Tickets.TicketCog.TicketClose: the replies the commands send (`ctx.reply`) are not added to the thread's history. The exception is the close prompt, which comes before the transcripts are built. Messages others post in the thread after the invoker's reply or during the vote wait are not recorded either.
- Tickets.TicketCog.TicketOpen: the `:.2f` rendering of the duplicate score in the greeting is a function parameter (`fixed2`).
- Config.SetAttr: only a value of the attribute's own type is stored. A value of another type leaves the configuration unchanged, whereas Python's `setattr` would store it. `config_set` always passes a value coerced to the current type, so it never reaches that case.
- Config.AttrOf: `hasattr` is narrowed to the eighteen dataclass fields. The dataclass's methods, such as `to_dict`, are also attributes in Python, but the model does not let them be overwritten.
- Admin.AdminCog.BlacklistList: which twenty entries are shown is left open, since the query has no `ORDER BY`. User name lookup is not modelled.
- Admin.AdminCog.ConfigGet and the other admin commands require a loaded configuration. The bot loads it at start-up, and `get_config` would otherwise parse the environment, as `LoadConfig` models.
- Transcripts: timestamps come pre-formatted as strings (strftime and isoformat are not modelled). The output is text, not its UTF-8 bytes.
