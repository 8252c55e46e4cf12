# Subject-helper rosters, pin permissions and extension names

This project models three cogs of a Discord bot for a study server and
proves properties of the model.

- **Roster cog** (`cogs/helpermessage.py`). For every subject channel the bot
  keeps a pinned *roster*: an embed with a fixed description and one field per
  helper role. The field is labelled `**<role name>**` and lists the mentions
  of the role's holders, one per line. The cog keeps a store from the channel
  key (the channel id written as a decimal string) to the roster's message id.
  When a member's roles change, it finds the roster for the first configured
  role among the added roles and appends the member's mention to the role's
  field. It then does the same for the removed roles, dropping the mention.
  The commands `create`, `delete` and `edit` build a roster, look a roster up,
  and rewrite every roster's description.
- **Pin cog** (`cogs/helper.py`). `check_permissions` applies three ordered
  tests over the `subjects` configuration table. The `Toggle Pin` context menu
  and the `pin` and `unpin` commands branch on its verdict and on the message's
  pinned flag.
- **Developer cog** (`cogs/dev.py`). The extension-name converter, and the
  number of guilds that `sync` reports as synced.

Modules:

- `Wrappers`: the Option type.
- `Text`: Python's `split('\n')`, `'\n'.join`, `strip`, `startswith`,
  `str(n)` and `int(s)`.
- `Config`: the `subjects` table, whose entries are a single role id or a list
  of ids.
- `RosterEmbed`: the roster document, the two patches and the embed that
  `create` builds.
- `Helpermessage`: the roster cog as a class with its store.
- `Helper`: the permission check and the pin commands.
- `Dev`: the converter and the sync count.

Modelling choices:

- **The platform.** It is a map from (channel id, message id) to the first
  embed of that message. A message that cannot be fetched is a missing key.
  Sending or editing a message is an update of the map.
- **Sets and dictionaries.** Python sets are iterated in an unspecified
  order, so the role sets of the member-update handler are sequences in
  whatever order the caller gives. Every property holds for every order.
  The `subjects` table keeps file order. `edit` walks the store in an
  arbitrary order.
- **Role equality.** Roles are compared by id alone, as the platform's
  `Role` does.
- **Embed truthiness.** An embed is falsy exactly when its description is
  empty and it has no fields. These are the only parts of an embed the
  model keeps.
- **Where a reader might expect otherwise, the model follows the code as
  written.**
  - Only the first matching roster of a batch is patched.
  - An exception in the first batch ends the handler. A roster that cannot
    be fetched is not skipped.
  - `create` overwrites an existing store entry instead of refusing.
  - `delete` neither deletes the message nor removes the entry.
  - Appending is not idempotent.
  - A patch rebuilds every field through `add_field` without `inline`, so
    every field comes back inline, even when no field carries the label.
    The document is returned unchanged only when its fields were already
    inline.

## Model

| member | source | states |
|---|---|---|
| Text.LeadingSpaces | cogs/dev.py:21 | the count of leading characters removed is a run of whitespace, followed by the end of the string or by a non-whitespace character |
| Text.TrailingSpaces | cogs/dev.py:21 | the count of trailing characters removed is a run of whitespace, preceded by the start of the string or by a non-whitespace character |
| Text.Strip | cogs/dev.py:21 | the result is the slice of the argument that starts after its leading whitespace; everything cut off before and after it is whitespace, and neither end of the result is whitespace |
| Text.StripTrimmed | cogs/dev.py:21 | a string whose ends are not whitespace is returned unchanged by `strip()` |
| Text.Split | cogs/helpermessage.py:85 | `split('\n')` gives at least one piece, and no piece holds a newline |
| Text.JoinSplit | cogs/helpermessage.py:85-87 | `'\n'.join` of the pieces of `split('\n')` gives the string back |
| Text.SplitJoin | cogs/helpermessage.py:85-105 | `split('\n')` of a `'\n'.join` of newline-free pieces, as line 85 splits a value that line 105 or line 87 joined, gives the pieces back |
| Text.SplitAppended | cogs/helpermessage.py:73 | splitting `v + "\n" + m` with `m` newline-free gives the lines of `v` followed by `m` |
| Text.Str | cogs/helpermessage.py:114 | `str(n)` is a nonempty run of decimal digits with no leading zero |
| Text.ParseDecimal | cogs/helpermessage.py:48 | `int(key)` succeeds exactly on a nonempty string of decimal digits |
| Text.ParseStr | cogs/helper.py:38-43 | `int(str(n)) == n`, so every channel id survives the key conversion |
| Text.LeadingZeroKey | cogs/helper.py:38-43 | the converse fails: the key "07" parses to 7, but `str(7)` is "7", so line 43 looks up a different key |
| Config.EntryOf | cogs/helper.py:43 | the lookup fails exactly when the key is absent; otherwise it returns an entry stored under that key |
| RosterEmbed.Mention | cogs/helpermessage.py:73 | a mention is never empty and never spans lines |
| RosterEmbed.DropLine | cogs/helpermessage.py:86 | the kept lines are exactly the old lines other than the mention |
| RosterEmbed.DropAbsentLine | cogs/helpermessage.py:86 | dropping a mention that is not a line keeps every line, in order |
| RosterEmbed.DropLineConcat | cogs/helpermessage.py:86 | filtering distributes over concatenation |
| RosterEmbed.Patched | cogs/helpermessage.py:70-89 | same description, same number of fields, same names in the same order, every field inline; a labelled field's value becomes the old value plus a newline and the mention (add) or the join of its lines without the mention (remove), and every other field keeps its value |
| RosterEmbed.Rebuild | cogs/helpermessage.py:70-89 | the loop of `add_field` calls builds exactly the patched embed |
| RosterEmbed.AppendAddsLine | cogs/helpermessage.py:72-73 | after an append, the labelled field's lines are the old lines plus the mention as one more line |
| RosterEmbed.UnlabelledUnchanged | cogs/helpermessage.py:71-75 | when no field has the label, no name or value changes and no field is created; an embed whose fields are already inline comes back equal |
| RosterEmbed.AppendTwiceDuplicates | cogs/helpermessage.py:73 | appending twice makes the mention appear twice as a line, so the append is not idempotent |
| RosterEmbed.RemoveDropsMention | cogs/helpermessage.py:84-87 | after a removal, the field's lines are the old lines without the mention, in order (one empty line when none are left), so the mention is no longer a line |
| RosterEmbed.RemoveAfterAppend | cogs/helpermessage.py:73-87 | removing a newline-free mention just appended to a value that did not list it restores the value |
| RosterEmbed.RoundTrip | cogs/helpermessage.py:70-89 | appending then removing an unlisted member gives the original embed back, with every field now inline |
| RosterEmbed.HolderMentions | cogs/helpermessage.py:102 | the mentions listed are exactly those of the members holding the role, and there are no more of them than members |
| RosterEmbed.HolderMentionsOne | cogs/helpermessage.py:102 | a single member contributes their mention exactly when they hold the role, and nothing otherwise |
| RosterEmbed.HolderMentionsConcat | cogs/helpermessage.py:102 | the comprehension keeps guild order: the mentions for two runs of members are those of the first run followed by those of the second |
| RosterEmbed.RosterEmbedOf | cogs/helpermessage.py:99-107 | the created embed has the description and exactly one field per given role, in order, labelled with the role's name and holding the joined mentions of its holders, not inline |
| RosterEmbed.BuildRoster | cogs/helpermessage.py:99-107 | the loop of `add_field` calls builds exactly that embed |
| RosterEmbed.RosterLines | cogs/helpermessage.py:102-105 | a freshly built field lists the holders' mentions one per line (one empty line when nobody holds the role) |
| Helpermessage.FirstKey | cogs/helpermessage.py:40-51 | the inner loop yields no key exactly when no row matches the role; otherwise it yields the key of the first matching row |
| Helpermessage.FirstMatch | cogs/helpermessage.py:38-52 | no pair exactly when no role matches any row; otherwise the first role with a match, roles outside and rows inside, together with its first matching row |
| Helpermessage.FetchRoster | cogs/helpermessage.py:48-50 | the roster is found exactly when the key is a number, has a stored message id, and that message exists, and it is that message's embed; a malformed key fails first, then a missing channel, and the store is read only once the channel exists |
| Helpermessage.Resolve | cogs/helpermessage.py:38-52 | `(None, None, None)` exactly when nothing matches, so nothing is fetched; a found roster is a posted message for one of the given roles |
| Helpermessage.DifferenceMembers | cogs/helpermessage.py:64-65 | `Difference`, the set difference of lines 64-65: a role is added (removed) exactly when it is in the list after (before) and its id is not among the ids before (after) |
| Helpermessage.DifferenceEmpty | cogs/helpermessage.py:64-67 | a difference is empty exactly when every id of the first list is among the second's |
| Helpermessage.DifferenceConcat | cogs/helpermessage.py:64 | the difference of a concatenation is the concatenation of the differences |
| Helpermessage.DifferencesDisjoint | cogs/helpermessage.py:64-65 | added and removed roles never share an id |
| Helpermessage.DifferencesEmptyWhenSameIds | cogs/helpermessage.py:61-65 | with the same ids before and after, in any order, nothing is added or removed |
| Helpermessage.Step | cogs/helpermessage.py:67-90 | one batch rewrites at most one message and creates or drops none; with no roles or no match nothing changes and nothing is raised; a failed fetch changes nothing and raises that fault; a falsy roster is left alone; a matched truthy roster is replaced by its patch |
| Helpermessage.UpdateChangesAtMostTwo | cogs/helpermessage.py:60-90 | the whole handler rewrites at most two rosters and never creates or drops a message |
| Helpermessage.UpdateNoOpOnSameRoles | cogs/helpermessage.py:60-65 | equal role lists, or lists with the same ids, leave every message as it was |
| Helpermessage.ListEntriesNeverUpdate | cogs/helpermessage.py:41-47 | with list-valued entries no role ever matches, so the handler never fetches or edits a roster |
| Helpermessage.GainedRole | cogs/helpermessage.py:60-65 | gaining one new role differs from the old list, adds exactly that role and removes none |
| Helpermessage.UpdateOnOneRole | cogs/helpermessage.py:60-90 | gaining (losing) one role is exactly one append (remove) batch for that role |
| Helpermessage.StepOnRoster | cogs/helpermessage.py:68-76 | in any table, a batch for a role whose first matching row is channel `c`'s patches the truthy roster stored for `c` with the role's label and the member's mention, and changes nothing else |
| Helpermessage.OneRoleBatch | cogs/helpermessage.py:67-90 | in any table, gaining or losing a role whose first matching row is channel `c`'s leaves the platform with `c`'s roster patched and nothing else changed, and raises nothing |
| Helpermessage.GainThenLose | cogs/helpermessage.py:55-90 | in any table and for any held roles, gaining a role whose first matching row is channel `c`'s patches `c`'s roster with the member's mention, and losing it again restores that roster with its fields inline |
| Helpermessage.LoseAfterGain | cogs/helpermessage.py:78-89 | losing a role just gained, whose first matching row is channel `c`'s, takes the member's mention out of `c`'s roster again and leaves it with its fields inline |
| Helpermessage.CreateGainLose | cogs/helpermessage.py:93-116 | after `create` with any list of roles, for the role at any position `k` whose first matching row is the channel's: a member who gains it appears as one more line of field `k`, no field is added or lost, and after losing it the roster is what `create` sent, with its fields now inline |
| Helpermessage.Recorded | cogs/helpermessage.py:114 | the store maps the channel's key to the new message id, overwriting any earlier id, and keeps every other entry |
| Helpermessage.Described | cogs/helpermessage.py:136-137 | the selected embeds get the new description and keep their fields; every other message is unchanged; no message is created or dropped |
| Helpermessage.StoredRefsGrow | cogs/helpermessage.py:133-135 | each key the loop handles adds its message to the set of rosters already rewritten |
| Helpermessage.DescribedGrow | cogs/helpermessage.py:136-138 | rewriting one more roster's description extends the partial result |
| Helpermessage.Helpermessage.constructor | cogs/helpermessage.py:8-12 | the cog starts with the configured table and store |
| Helpermessage.Helpermessage.EmbedGetter | cogs/helpermessage.py:38-52 | the nested loops with early return compute exactly the first-match fetch |
| Helpermessage.Helpermessage.PatchRoster | cogs/helpermessage.py:67-90 | one batch (find, rebuild, write back) is exactly the batch specification |
| Helpermessage.Helpermessage.OnMemberUpdate | cogs/helpermessage.py:55-90 | the handler is `HandleUpdate`: equal id lists change nothing; otherwise it diffs the role lists and runs the append batch, then the remove batch unless the first raised |
| Helpermessage.Helpermessage.Create | cogs/helpermessage.py:93-116 | the channel gets the built roster as message `sentId`, and the store records it under the channel's key |
| Helpermessage.Helpermessage.Delete | cogs/helpermessage.py:118-126 | the store is not changed; the "does not exist" reply is sent exactly when the channel's key is absent |
| Helpermessage.Helpermessage.Edit | cogs/helpermessage.py:128-139 | the confirmation is sent exactly when every stored key names an existing channel and message, and then every stored roster has the new description and keeps its fields; otherwise some rosters were rewritten and nothing else was |
| Helper.Flatten | cogs/helper.py:33 | as written, the flattening succeeds exactly when every entry is a list, and then holds exactly the ids those lists name |
| Helper.FlattenIds | cogs/helper.py:33 | read consistently, the flattening holds exactly the ids the entries name |
| Helper.ParseKeys | cogs/helper.py:38 | the conversion succeeds exactly when every key is a number, and then yields each key's value in order |
| Helper.Check | cogs/helper.py:29-48 | each verdict holds exactly when the tests before it pass and its own test decides it: not a helper; not a subject channel; not the user's channel; allowed. Only those three refusal messages exist |
| Helper.CheckPermissionsNeverAllows | cogs/helper.py:33-47 | as written, the check lets nobody through, whatever the configuration |
| Helper.IntendedAllowsOwnChannel | cogs/helper.py:29-48 | read consistently, with numeric keys, a user is allowed exactly when the channel is configured and the user holds one of its roles |
| Helper.ListConfigExample | cogs/helper.py:43-47 | a helper for channel 1 configured as a list is refused in channel 1 as written, and allowed when the entry is read consistently |
| Helper.TogglePin | cogs/helper.py:50-81 | once allowed, the menu unpins exactly when the message is pinned and pins otherwise; an HTTP failure's reply is chosen by the pinned flag; a refusal sends its own message ephemerally; exactly one reply unless the check raised |
| Helper.Pin | cogs/helper.py:83-105 | without a message it replies and stops before the check; the platform is called only for an unpinned message once allowed; an already pinned message gets a reply and no call; it never unpins |
| Helper.Unpin | cogs/helper.py:107-127 | without a message it replies, still runs the check, and raises once allowed; the platform is called only for a pinned message once allowed; an unpinned message gets a reply and no call; it never pins |
| Helper.UnpinIntended | cogs/helper.py:112-113 | with the missing return added, no message means one reply, no check and no crash; otherwise it is `unpin` unchanged |
| Helper.UnpinReadingsAgree | cogs/helper.py:112-114 | the two versions of `unpin` agree whenever a message is given; without one, the code as written sends a refused caller two replies and crashes for an allowed one |
| Helper.PinCommandsNeverCallPlatform | cogs/helper.py:50-127 | with the check as written, neither the menu nor `pin` nor `unpin` ever calls the platform |
| Dev.ExtConverter | cogs/dev.py:17-24 | the result starts with `cogs.`; it is the stripped argument when that already does, and `cogs.` followed by it otherwise; neither end is whitespace |
| Dev.ExtConverterIdempotent | cogs/dev.py:17-24 | converting a converted name changes nothing |
| Dev.SyncCount | cogs/dev.py:100-109 | the count is the number of guild syncs that did not raise, so it is at most the number of guilds |

## Left out

- Discord calls are not modelled: fetching channels and messages, sending, editing, pinning and unpinning messages, and `tree.sync`, `copy_global_to` and `clear_commands`. Their results are inputs or lookups in the platform map. The pin call of `create` (line 111) is left out, because the model keeps no pinned state for rosters.
- Reading and writing `config.toml` is not modelled. The store is an in-memory map, and line 115's dump is left out.
- The `list` command (lines 24-36) is not modelled. Its paging lives in `utils/pagination.py`, which is not part of this model.
- The help group, `eval`, `guilddata`, extension load/unload/reload, context-menu registration and `cog_unload` are framework calls, so they are left out.
- The `sync` branch without explicit guilds (dev.py lines 82-98) is left out: it only reports what the framework's sync returns.
- Concurrency is not modelled. Each member-update event is handled as one sequential step, so the lost-update race between two events touching the same roster is not captured.
- Guild members are an input sequence, and a member is identified by its id alone.
- An embed keeps only its description and fields. A message without embeds (the `IndexError` of `embeds[0]`) is not modelled: every posted message has a first embed.
- Line 134 passes the string key to `fetch_channel` without `int()`. The model reads it as the same decimal conversion used on line 48.
- `int(s)` is modelled on plain decimal digits. The extra syntax Python accepts (surrounding whitespace, a sign, underscores, non-ASCII digits) reads as a malformed key.
- FetchRoster: a channel exists when the platform holds a message in it, so an existing channel with no messages fails as a missing channel, where the source fails afterwards on the store entry or the message (lines 49 and 135). `Edit` has the same gap. The stored message ids are numbers, so the `ValueError` of `int()` on a malformed stored id is not modelled.
- Exceptions raised by the platform during a send, an edit or a pin are not modelled. The handler's only errors are the key conversion, the missing channel, the missing store entry, and the missing message.
- Helpermessage.Helpermessage.Create: always records the new message in the store. In the source, a failed pin at line 111 ends `create` before line 114 records it, so the source can leave the entry unrecorded.
- Helper.TogglePin, Helper.Pin, Helper.Unpin: the verdict and the platform's answer are inputs, so the order in which a crash interleaves with the platform call is not modelled.

## Findings

| source | as written | input that shows it | evidently intended | confidence | as-written member | corrected member |
|---|---|---|---|---|---|---|
| cogs/helper.py:33-44 | line 33 iterates every entry as a list, and line 44 compares the channel's whole entry with the user's role ids | subjects `{"1": [5]}`, a user with role 5, channel 1: refused with "You may only pin messages in your respective subject channel." A scalar entry anywhere raises at line 33 instead | a helper holding one of the roles configured for the channel may pin there | not executed | Helper.CheckPermissionsNeverAllows | Helper.IntendedAllowsOwnChannel |
| cogs/helper.py:112-114 | without a message, `unpin` replies but does not return, so the check runs and `message.pinned` is read on `None` | `unpin` with no message by a non-helper gets two replies; by an allowed user it raises `AttributeError` | reply once and stop, as `pin` does at line 89 | not executed | Helper.Unpin | Helper.UnpinIntended |
