# Death tracker bot — verified model of the death ledger

The bot keeps an in-memory ledger of character deaths per chat user. A chat
message `!adddeath | username | characterName | level | race | time | cause`
(or a report from a companion app) records one death. `!deaths` answers
with a scoreboard ranking users by their number of deaths. Each death
announcement also carries the user's numbered death history.

This project models that ledger in Dafny:

- `text.dfy` (module `Text`) covers the string operations the code relies on:
  - `+=` accumulation (`Concat`);
  - `${n}` for a natural number (`NatToString`, with its reading-back inverse `DecimalValue`);
  - `split` on one character, with its inverse `Join`;
  - `trim`, over the ECMAScript white-space and line-terminator set.
- `ledger.dfy` (module `Ledger`) holds the data model.
  - The `deaths` dictionary is a value `Table`: a map from user name to `UserDeaths`, plus the key order `Object.keys` reports.
  - `Step` is one `addDeath` call and `Replay` a history of calls from start-up.
  - The lemmas prove the ledger invariants. Each count is the history length, and the last death is the last history entry. Across any history, a user's count is the number of calls naming them and their history is those deaths in call order.
- `ranking.dfy` (module `Ranking`) models the descending, stable sort of the users by total deaths as a stable insertion sort. It is proved to return a permutation that is ordered and keeps ties in key order.
- `render.dfy` (module `Render`) gives the scoreboard and the per-user death list as functions of the ledger, together with their sentinel properties.
- `command.dfy` (module `Command`) classifies chat messages and parses `!adddeath`. It proves the arity rule and a parse round trip.
- `bot.dfy` (module `Bot`) holds the mutable state.
  - Class `DeathTracker` has fields `deaths` and `users`. It also has a ghost `log` of the calls made, with `Valid()` stating that the fields equal `Replay(log)`.
  - `AddDeath` updates the entry in place, as the code does.
  - `Scoreboard` and `UserDeathList` build their text with loops, as the `forEach` callbacks do. They are proved equal to the `Render` functions.
  - `HandleMessage` is the `messageCreate` handler. It returns the reply instead of sending it to the channel.
- `prototype_keys.dfy` (module `PrototypeKeys`) models `addDeath` and `generateUserDeathList` exactly as written. The lookup sees inherited `Object.prototype` members, and the writes made before the call throws are kept. It exhibits the defect listed under Findings.

## Model

| member | source | states |
|---|---|---|
| Text.Concat | bot.js:117-122 | definition: the text a chain of `+=` builds from the pieces, left to right; `Bot.DeathTracker.Scoreboard` and `Bot.DeathTracker.UserDeathList` are proved to build exactly this |
| Text.StartsWith | bot.js:25 | definition: `startsWith(prefix)`, the prefix test that selects the `!adddeath` branch; used by `Command.ParseArity` |
| Text.NatToString | bot.js:104 | `${n}` of a count or rank is a non-empty string of decimal digits with no leading zero unless n is 0 |
| Text.NatToStringRoundTrip | bot.js:104 | reading the rendered digits back gives the number, so the rendering loses nothing |
| Text.NatToStringInjective | bot.js:104 | different counts are rendered as different texts |
| Text.Split | bot.js:26 | splitting on the bar character gives one more piece than there are separators, and no piece contains a separator |
| Text.JoinSplit | bot.js:26 | joining the pieces of `split` with the separator restores the message |
| Text.SplitJoin | bot.js:26 | splitting a join of separator-free pieces gives exactly those pieces back |
| Text.Trim | bot.js:26 | `trim()` leaves no white space at either end |
| Text.TrimPadded | bot.js:26 | `trim()` removes exactly the white-space padding around a trimmed text |
| Text.TrimInside | bot.js:26 | `trim()` adds no character, so a trimmed piece keeps the properties of the piece |
| Ledger.Step | bot.js:46-66 | definition: one `addDeath` call on the dictionary value with an own-key test for a new user; its effect is stated by `Ledger.StepEffect` and the invariant it keeps by `Ledger.StepConsistent` |
| Ledger.Replay | bot.js:8 | definition: the dictionary after a sequence of `addDeath` calls from `{}`; `Ledger.ReplayHistory` gives its entries in terms of the calls alone |
| Ledger.StepEffect | bot.js:46-66 | one `addDeath`: the user exists afterwards with count old count (0 if new) plus 1, the new death as last death and appended to the old history; every other user's presence and entry are unchanged; a new user goes at the end of the key order, while a known user leaves the order alone |
| Ledger.StepConsistent | bot.js:48-66 | `addDeath` preserves the invariant: keys and key order agree, the key order has no duplicates, and each entry's count is its history length with its last death the last history entry |
| Ledger.ReplayConsistent | bot.js:8 | the invariant holds for the empty dictionary and after any sequence of `addDeath` calls |
| Ledger.ReplayHistory | bot.js:46-66 | after any sequence of calls, a user has an entry iff some call named them; their count equals the number of such calls and their history is exactly those deaths in call order |
| Ledger.ReplayLastDeath | bot.js:65 | a user's last death is the death of the latest call that named them |
| Ranking.Insert | bot.js:96 | definition: places a user after every user with an equal or greater total, one step of the stable sort; see `Ranking.InsertPermutation`, `Ranking.InsertNonIncreasing`, `Ranking.InsertStable` |
| Ranking.RankUsers | bot.js:96 | definition: the users sorted by descending total deaths; `Ranking.RankUsersSorted` and `Ranking.RankUsersStable` determine its result completely |
| Ranking.InsertPermutation | bot.js:96 | one insertion step adds exactly the inserted user to the ranked sequence |
| Ranking.InsertNonIncreasing | bot.js:96 | inserting into a sequence ordered by non-increasing total keeps it ordered |
| Ranking.InsertStable | bot.js:96 | inserting after the users of equal or greater total keeps the users of each total in their original order |
| Ranking.RankUsersSorted | bot.js:96 | the sort by `deaths[b].totalDeaths - deaths[a].totalDeaths` returns a permutation of the users ordered by non-increasing total deaths |
| Ranking.RankUsersStable | bot.js:96 | the sort is stable: for every total, the users with that total appear in key-insertion order |
| Ranking.RankPrecedes | bot.js:96 | a user with strictly more deaths is ranked strictly before a user with fewer |
| Render.ScoreRow | bot.js:104 | definition: the row for one user: rank, user name, total deaths, and the last death's character name, level and race |
| Render.ScoreboardText | bot.js:89-108 | definition: `generateScoreboard()` as a function of the dictionary: the sentinel when there are no keys, otherwise header, separator and the rows in rank order; see `Render.ScoreboardEmpty`, `Render.RankedOnce` and `Bot.DeathTracker.Scoreboard` |
| Render.DeathLine | bot.js:120-121 | definition: the 1-based numbered line for one death: character name, time, level, race and cause |
| Render.DeathListText | bot.js:111-125 | definition: `generateUserDeathList(username)` as a function of the dictionary: the message for a user without an own entry, otherwise one line per recorded death in append order; see `Render.DeathListEmpty`, `Render.DeathListUnknown` and `Bot.DeathTracker.UserDeathList` |
| Render.RankedOnce | bot.js:90-105 | for a consistent ledger, every user with an entry gets exactly one scoreboard row and nobody else gets one |
| Render.ScoreRowsExtend | bot.js:101-105 | the row text accumulated after rank i + 1 is the text after rank i followed by the row of the (i + 1)-th ranked user, which has a last death to show |
| Render.ScoreboardEmpty | bot.js:90-93 | the scoreboard is the sentinel `No hay muertes registradas aún.` iff the dictionary is empty |
| Render.DeathListEmpty | bot.js:111-124 | the death list is empty text iff the user has an entry whose history is empty |
| Render.DeathListUnknown | bot.js:112-113 | in a consistent ledger the "no deaths for user" message is returned iff the user has no entry |
| Command.Arguments | bot.js:26 | splitting on the bar character, trimming every piece and dropping the first yields as many arguments as the message has separators |
| Command.Parse | bot.js:25-37 | definition: what the handler does with a message: an `!adddeath` with six arguments, a malformed `!adddeath`, `!deaths`, or nothing; see `Command.ParseArity` and `Command.ParseAddDeathMessage` |
| Command.ParseArity | bot.js:25-30 | an `!adddeath` message is accepted iff it has exactly six separators, i.e. six arguments, and gets the usage reply otherwise; `!deaths` is recognised only as the whole message (bot.js:37) |
| Command.ParseFieldsClean | bot.js:26-32 | every field of an accepted report is trimmed and contains no separator |
| Command.MessageSplits | bot.js:26 | the message built from a clean report splits into the keyword piece and the six padded fields |
| Command.MessageFields | bot.js:26 | the arguments of the message built from a clean report are exactly the report's six fields |
| Command.ParseAddDeathMessage | bot.js:25-33 | round trip: parsing the `!adddeath` message built from any clean report, with its six fields separated by padded separators, yields that report |
| Bot.AddedMessage | bot.js:34 | definition: the confirmation sent after a death is added by command; `Bot.DeathTracker.HandleMessage` replies with it |
| Bot.DeathTracker.constructor | bot.js:8 | the dictionary starts empty with no keys, and the invariant holds |
| Bot.DeathTracker.AddDeath | bot.js:46-66 | creates the entry `{0, null, []}` for an absent user, then counts one more death, sets the last death to the new record and appends it to the history; all other entries and the relative key order are untouched; the state stays equal to the replay of all calls |
| Bot.DeathTracker.Scoreboard | bot.js:89-108 | the loop returns exactly `ScoreboardText` of the current ledger: the sentinel when there are no users, otherwise the header, the separator and one row per ranked user in rank order |
| Bot.DeathTracker.UserDeathList | bot.js:111-125 | the loop returns exactly `DeathListText`: the "no deaths for user" message for an unknown user, else line i + 1 for the i-th recorded death, in append order |
| Bot.DeathTracker.HandleMessage | bot.js:25-42 | a valid `!adddeath` records exactly that report and replies with the confirmation (bot.js:34); a malformed one gets the usage reply and changes nothing; `!deaths` gets the title followed by the scoreboard; anything else gets no reply and changes nothing |
| PrototypeKeys.AddDeathAsWritten | bot.js:48-66 | definition: `addDeath` as written on the dictionary plus the truthy names added to `Object.prototype`: an inherited `deaths[username]` creates no entry, the writes of lines 57 and 65 still happen (for `__proto__` they make `lastDeath` an inherited name), and the push at line 66 throws |
| PrototypeKeys.AsWrittenThrows | bot.js:48-66 | a call as written throws iff the user has no own entry and the name is inherited in the current state, including names added by earlier writes; a call that throws leaves the dictionary unchanged |
| PrototypeKeys.AsWrittenAgrees | bot.js:48-66 | for a user with an own entry, or a name not inherited in the current state, the call as written is exactly the ledger step and adds no inherited name |
| PrototypeKeys.ReplayAsWrittenAgrees | bot.js:46-66 | any history whose user names are not `Object.prototype` members is recorded as written exactly as the ledger replay records it |
| PrototypeKeys.ConstructorNameIsLost | bot.js:48-66 | on an empty dictionary, a death reported for user `constructor` throws as written and records nothing, while the ledger step records it as that user's first death |
| PrototypeKeys.PrototypeReportLosesLastDeath | bot.js:57-66 | after a report for user `__proto__`, a report for user `lastDeath` (not a member of an untouched `Object.prototype`) also throws as written and the dictionary stays empty, while the ledger records both users |
| PrototypeKeys.DeathListAsWritten | bot.js:111-125 | definition: `generateUserDeathList` as written: the message for a missing name, the list for an own entry, and a TypeError at `deathDetails.forEach` for an inherited name |
| PrototypeKeys.DeathListAsWrittenAgrees | bot.js:111-125 | the list as written throws iff the name has no own entry and is inherited in the current state; otherwise it equals `Render.DeathListText` |
| PrototypeKeys.AnnouncedListAgrees | bot.js:79-81 | at the call in the announcement, right after an `addDeath` that did not throw, the list as written does not throw and equals `Render.DeathListText` |
| PrototypeKeys.ConstructorListThrows | bot.js:112-119 | on an empty dictionary the list as written throws for `constructor`, where `Render.DeathListText` gives the message for a user with no deaths |

## Left out

- The Discord client, login, the `messageCreate` wiring and `message.channel.send` are I/O (bot.js:1, 7, 19, 128). `HandleMessage` returns the reply text instead of sending it.
- `defaultChannel` and the death announcement that `addDeath` sends are outbound I/O (bot.js:9, 21-23, 68-85). `AddDeath` is the table update only; the announcement embeds the scoreboard and the user's death list, which `Scoreboard` and `UserDeathList` model.
- The HTTP `/death` endpoint and `app.listen` are framework glue around `addDeath` (bot.js:4-5, 12-16, 130-134). server.js is not part of this model.
- `Object.keys` lists integer-like keys first, in numeric order. The model assumes plain insertion order for all user names.
- JavaScript strings are UTF-16 code units, while the model's `char` is a Unicode scalar value. Split on `|` and trim over the BMP white-space set do not tell the two apart.
- `level` stays the text it was given, as in the code. It is never parsed as a number.
- Ranking.RankUsers: `users.sort` sorts the key array in place with an engine-chosen algorithm. The model uses a pure stable insertion sort on a sequence with the same comparison. It captures the result (permutation, order, stability) but not the in-place mutation.
- Bot.DeathTracker.Scoreboard: it returns text only for a valid ledger. The code would throw on an entry without a last death, which a consistent ledger never has.
- Bot.DeathTracker.AddDeath: it decides whether the user is new with an own-key test, which is the corrected behaviour described under Findings, not the inherited-member lookup as written.
- Bot.DeathTracker.UserDeathList: it and Render.DeathListText test for an own entry, the corrected lookup. As written, `!deaths[username]` (bot.js:112) finds an inherited member such as `constructor`, skips the message for an unknown user and throws at `deathDetails.forEach` (bot.js:116-119). The only call (bot.js:81) comes right after `addDeath` has given the name an own entry or has already thrown, so the program never reaches that case; `PrototypeKeys.DeathListAsWritten` models it.
- Bot.DeathTracker.HandleMessage: it replies with the confirmation for every accepted `!adddeath`. As written, a report for an inherited name throws inside `addDeath` and leaves the listener before line 34, so no confirmation is sent; `PrototypeKeys.AsWrittenThrows` states when that happens.
- AsWrittenAgrees: the as-written state tracks only the truthy names that writes through `deaths["__proto__"]` add to `Object.prototype`. Writes that land on function objects (`Object.totalDeaths` for `constructor`) or on an inherited record are not kept, because no plain-object lookup can see them. A throwing call is taken to abandon only that call: Express answers a throwing `/death` handler with an error response and keeps running; whether the chat client survives one is a property of that library, which is not part of this model.
- Counts and ranks are JavaScript numbers, exact only up to 2^53, and `${n}` switches to exponent notation from 10^21. The model's `nat` is unbounded and always renders plain digits; no reachable number of deaths comes near either limit.

## Findings

| source | as written | input that shows it | evidently intended | confidence | as-written member | corrected member |
|---|---|---|---|---|---|---|
| bot.js:48-66 | `!deaths[username]` also finds members inherited from `Object.prototype`, so no entry is created for such a name; lines 57 and 65 write `totalDeaths` and `lastDeath` onto the inherited value, then `deathDetails.push` at line 66 throws a TypeError and the death is lost | on an empty ledger, an `!adddeath` message with six fields whose username field is `constructor` | create the entry for any user without an own entry and record the death | high; not executed | PrototypeKeys.ConstructorNameIsLost | Ledger.StepEffect |
| bot.js:57-66 | for user `__proto__` the inherited value is `Object.prototype` itself, so the writes of lines 57 and 65 give every object a truthy inherited `lastDeath` before the throw; from then on a report for user `lastDeath` is lost the same way | a report for user `__proto__`, then a report for user `lastDeath` | every user name without an own entry gets one; a report never changes what other names look up | high; not executed | PrototypeKeys.PrototypeReportLosesLastDeath | Ledger.ReplayHistory |
