# Kontrolle-Bot inspection counters, modelled in Dafny

Kontrolle-Bot is a Discord bot that records inspections ("Kontrollen"). A
`/kontrolle` command opens a modal form (name, place, status, time). Submitting
it shows a select menu: "who was there?". Picking from that menu commits the
inspection to a counter store, `stats.json`. `/stats` renders the store as a
leaderboard. This project models the logic of `index.js` in that flow:

- **Commit** (`StatsStore`): the select handler loads the record
  `{today, total, lastName, lastBy, users}`, or a default when the file is
  missing or unparsable. It then bumps `today` and `total`, overwrites
  `lastName` and `lastBy`, bumps the submitter's counter in `users`, and
  overwrites the file. `StatsFile` is a class whose one field is the parsed
  file contents, an `Option<Stats>`. Its `Commit` method performs the
  read-modify-write step by step. `Recorded` is the specification of one
  commit and `RecordedAll` of a series of them. The lemmas show that the
  counter invariants (`total` is the sum of the per-user counters,
  `today <= total`, one counter per user) are kept, and that a series of
  commits applied one after the other loses none of them.
- **Per-user counters** (`Tally`): the `users` object is an association list
  of `Entry(user, count)` kept in key-insertion order, because that is the
  order `Object.entries` yields for non-numeric keys. `Bump` is
  `users[u] = (users[u] || 0) + 1`. An existing key keeps its place, and a
  new key is appended.
- **Leaderboard** (`Ranking`, `Summary`): `Object.entries(users).sort((a, b)
  => b[1] - a[1])` is a stable sort by descending count. Section 22.1.3.27 of
  ECMAScript 2019 requires `Array.prototype.sort` to be stable. `Ranked` is
  proved to be a permutation, non-increasing and stable. `RankedUnique` shows
  that any sort with those three properties gives exactly `Ranked`.
  `Summary.Description` renders the lines `- u → cx`, joins them with
  newlines and falls back to `Noch keine Daten`. `ParseDescription` reads
  the text back, and the round-trip lemma shows the text lists exactly the
  ranked counters.
- **Selection helpers** (`Selection`): the select-menu options are the
  cached members that are not bots, mapped to `{label, value}` and cut at
  25. The companion text wraps each chosen id as `<@id>` and joins them with
  `", "`, or reads `Keine Angabe` when nothing was chosen. `CompanionIds`
  reads the ids back.
- **Text** (`Text`): `join` and the decimal rendering of a count, each with
  an inverse (`Split`, `DecimalValue`) that the bot never calls and that
  exists only for the round-trip lemmas.

## Model

| member | source | states |
|---|---|---|
| `Tally.Count` | index.js:131 | `users[u] \|\| 0`: a user without a counter reads as 0 |
| `Tally.Bump` | index.js:131 | the bumped user's counter is one higher, every other user's counter is unchanged, and the key set gains at most that user |
| `Tally.BumpSum` | index.js:131 | a bump raises the sum of all counters by exactly one |
| `Tally.BumpOrder` | index.js:131 | bumping an existing key keeps every key in its position; a new key is appended last with counter 1 (object insertion order) |
| `Tally.BumpDistinct` | index.js:131 | a bump keeps each key at most once |
| `StatsStore.StatsFile.Commit` | index.js:125-132 | loads the record or the default `{0, 0, "Noch niemand", "Unbekannt", {}}`; the file then holds that record with `today` and `total` one higher, `lastName`/`lastBy` overwritten, the submitter's counter one higher, other counters unchanged, keys grown by at most the submitter; the invariants are kept; from a missing or unreadable file the result is exactly `{1, 1, name, user, {user: 1}}` |
| `StatsStore.StatsFile.OnSelect` | index.js:119-132 | an interaction that is not the `select_dabei` string select changes nothing; otherwise the companion text is returned and the inspection is committed under the selecting user's tag with the modal's name |
| `StatsStore.Recorded` | index.js:127-131 | one commit raises the sum of the counters by exactly one; if `total == sum(users)`, `today <= total` and the keys are distinct before it, all three hold after it (per-user effect: `Tally.Bump`; series: `RecordedAllTotals`, `RecordedAllPerUser`, `RecordedAllLast`) |
| `StatsStore.RecordedAllTotals` | index.js:125-132 | N successive commits raise `today`, `total` and the sum of the counters by exactly N, and keep the invariants |
| `StatsStore.RecordedAllPerUser` | index.js:131 | after N commits each user's counter has grown by the number of those commits that user made |
| `StatsStore.RecordedAllLast` | index.js:129-130 | after a series of commits, `lastName` and `lastBy` come from the last one |
| `Ranking.Ranked` | index.js:154 | the sorted entries are a permutation of the input, in non-increasing count order, and entries with equal counts keep their original relative order |
| `Ranking.InsertSorted` | index.js:154 | inserting one entry into a non-increasing sequence keeps it non-increasing |
| `Ranking.InsertStable` | index.js:154 | an inserted entry goes in front of the entries with its count and leaves their order alone |
| `Ranking.StableSortDetermined` | index.js:154 | two non-increasing sequences with the same entries of each count, in the same order, are equal |
| `Ranking.RankedUnique` | index.js:154 | every stable sort by descending count returns exactly `Ranked` |
| `Ranking.RankedTieExample` | index.js:154 | counters a = 3, b = 5, c = 3 rank as b, a, c |
| `Ranking.RankedTally` | index.js:154 | ranking a tally with distinct keys lists every user exactly once, each with their own counter |
| `Summary.StatsReply` | index.js:150-165 | refused with `❌ Nicht erlaubt hier` exactly when the channel is not the configured stats channel (always, when that is unset); otherwise shows the record loaded with the `"-"` default: `today`/`total` as the canonical decimal numerals `${n}` of their values (at least one digit; the first digit is 0 only for 0, and then it is the only digit), `lastName`/`lastBy` verbatim, and the leaderboard description |
| `Summary.Description` | index.js:154-165 | the description is never empty, and it is `Noch keine Daten` exactly when there are no counters (its contents: `DescriptionRoundTrip`) |
| `Summary.ParseLineRoundTrip` | index.js:154 | each line `- u → cx` can be read back into its user and count, even when the user name has digits or arrows |
| `Summary.DescriptionRoundTrip` | index.js:154-165 | the description lists exactly the ranked counters, line by line in ranked order, when no user name contains a newline |
| `Text.Join` | index.js:154 | `join` of no parts is empty; otherwise the result starts with the first part |
| `Text.SplitJoin` | index.js:154 | splitting a newline-joined text on newlines gives the lines back when no line contains a newline |
| `Text.DecimalString` | index.js:160-161 | `${n}` is at least one digit; its first digit is 0 exactly when n is 0, and then it is the only digit |
| `Text.DecimalRoundTrip` | index.js:160-161 | the rendered numeral denotes the count it was made from |
| `Selection.NonBots` | index.js:105 | the filter result is no longer than the member list and holds no bot (exact contents: `NonBotsMembers`; order: `NonBotsAppend`) |
| `Selection.NonBotsMembers` | index.js:105 | the bot filter keeps every member that is not a bot, as often as it occurs, and drops every bot |
| `Selection.NonBotsAppend` | index.js:105 | the bot filter keeps cache order |
| `Selection.MemberOptions` | index.js:105-108 | at most 25 options; exactly min(25, number of non-bots); option i has the username and id of the i-th non-bot member in cache order |
| `Selection.MemberOptionsAreHumans` | index.js:105-108 | every option is the label and value of a member that is not a bot |
| `Selection.MemberOptionsComplete` | index.js:105-108 | with at most 25 non-bot members, every one of them is offered |
| `Selection.CompanionText` | index.js:122 | the companion text is `Keine Angabe` exactly when no id was selected (its contents: `CompanionRoundTrip`) |
| `Selection.CompanionRoundTrip` | index.js:122 | the companion text lists exactly the selected ids, in selection order, each as `<@id>` and separated by `", "`, when no id contains `>` |

## Left out

- The Express web server, the health endpoints and the `/health` reply (index.js:23-29, 170-172): HTTP I/O and client state.
- The keep-alive self-ping timer (index.js:31-37): network I/O and timers.
- Startup notifications and `notifyError` (index.js:41-49, 175-182): calls into the chat client.
- Slash-command registration (index.js:51-69). deploy-commands.js is not part of this model: it only makes REST calls to Discord.
- Building the modal, the select menu, the embeds and the replies (index.js:73-91, 99-117, 134-146, 156-167): presentation through discord.js builders. The model returns the values these builders receive.
- The date in the confirmation footer (index.js:144): it depends on the clock and the locale.
- File I/O and JSON (index.js:126, 132, 153) are abstracted. A read yields `Some(record)` or `None`, and a write replaces the whole record. A parsed file is assumed to be well-formed: numeric fields are natural numbers and `users` has one counter per key. The source does not check this.
- StatsStore.StatsFile.Commit: a failing `writeFileSync` throws in the source, so the confirmation is never sent. The model's write always succeeds.
- StatsStore.StatsFile.OnSelect: it models one listener handling one interaction, not the `client.once` registration (index.js:119). In the source every modal submit registers another one-shot listener, and the next interaction runs all pending listeners. So one `select_dabei` selection commits k times when k modals are open: `today`, `total` and the selecting user's counter each rise by k, and `lastName` comes from the last listener to run. The second `select.update` then fails, and later selections find no listener. A listener is also used up by an interaction it ignores. The read-modify-write itself (index.js:125-132) is synchronous, so one Node process never interleaves two commits.
- Tally.Count: counters are unbounded naturals. JavaScript numbers are doubles, so `+ 1` stops being exact above 2^53. `${n}` also switches to exponent notation at 10^21.
- Tally.BumpOrder: `Object.entries` lists integer-like keys (such as `"123"`) first, in numeric order, before other keys. The model assumes user tags are not integer-like.
- Tally.Count: keys inherited from `Object.prototype` are not modelled. For a user whose tag is `constructor` (a valid username, and `User#tag` is the bare username for migrated accounts), `users[u] || 0` reads the inherited `Object` function, so the counter is stored as the string `"function Object() { [native code] }1"` and `total == sum(users)` no longer holds; `__proto__` misbehaves likewise. The model treats every tag as an ordinary key.
