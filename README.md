# Vote engine and raid-report aggregator

A Dafny model of the two pieces of internal logic in a Discord bot:

- **The `/vote` command** (`commands/vote.js`). A vote is stored under its title. It is created from a comma-separated option string: the string is split on `,`, each piece is trimmed, empty pieces are skipped, and parsing stops after `maxOptions` = 5 non-empty pieces. Every option starts with a tally: a counter in an anonymous vote, or an empty map from user id to display name in a named vote. Each button press is one ballot:
  - An anonymous ballot records the voter and raises the chosen counter. A second ballot by the same user is refused.
  - A named ballot toggles the user's entry under the chosen option.

  The result embed has one field per option.
- **The `/log` command's summary** (`commands/log.js`). From a report's fights it builds the best pull per difficulty and boss: a kill stores 0, and a wipe keeps the lowest remaining percentage. It then builds:
  - one text block per difficulty;
  - the top parse: the best rank of the last fight that has a positive rank;
  - the roster of each role, with names de-duplicated in first-seen order;
  - the list of embed fields: Heroic, Normal, Top parse, Damage, Healing and Tanking.

A JavaScript object used as a dictionary is modelled by `OrderedMaps.OrderedMap`: its keys in insertion order, plus a Dafny map. The JSON file that holds the votes is the `votes` field of the class `VoteEngine.VoteStore`. Its methods update that field in place. The loops of the source are `while`/`for` loops in methods. Each method is proved against a specification function (a recursive fold, or a sequence or map comprehension), and the properties are lemmas about those functions.

Files:
- `wrappers.dfy`: `Option`.
- `seqs.dfy`: `Distinct` and `Dedup` (the result of repeated `if (!a.includes(x)) a.push(x)`).
- `text.dfy`: `Split`, `Trim`, line joining and decimal rendering.
- `ordered_map.dfy`: the `OrderedMap` model of an object.
- `vote.dfy`: module `VoteEngine`.
- `log.dfy`: module `RaidReport`.

The model follows the code as written, including these behaviours:
- Duplicate option labels collapse into one option. For example, `" Yes , No ,Yes"` gives the options `Yes` and `No`, because assigning to an existing object key does not add a key. Duplicates still count toward the cap of five.
- An anonymous option with no votes shows `0`, not `-`. The dash removal tests `result.length`, and a number has no length.
- Roster names are not sorted. They appear in first-seen order.
- A button's custom id is the option's label, not its index.
- Two identical named ballots restore the vote exactly when the user was not yet listed under the option, or was its last entry and kept the same display name. When the user was listed elsewhere in the option and their display name has not changed, the same people and names remain, but the user's entry moves to the end of the option's names: the delete and the re-add put a fresh key last. The rendered field then lists that name last.
- Only difficulties 4 (Heroic) and 3 (Normal) become fields. No Mythic field is produced.

## Model

| member | source | states |
|---|---|---|
| VoteEngine.BuildOptions | commands/vote.js:70-86 | the option loop yields exactly `InitialOptions`: well formed, at most five keys, every value the initial tally of the anonymity mode |
| VoteEngine.ParsedOptions | commands/vote.js:70-86 | the option keys are the distinct labels among the first five non-empty trimmed pieces, in first-seen order; the kept labels are a prefix of all labels, and there are exactly five when at least five exist |
| VoteEngine.AssignSpec | commands/vote.js:78-82 | assigning labels in turn keys the table by the de-duplicated labels in first-seen order, each holding the assigned tally |
| VoteEngine.LabelsSpec | commands/vote.js:73-76 | every label is a non-empty trimmed piece; every piece that does not trim to empty gives a label; there are no more labels than pieces |
| VoteEngine.NewVoteValid | commands/vote.js:88-95 | a freshly created vote satisfies the vote invariant (bounds, tally kinds, counters summing to voters) and has no voters |
| VoteEngine.Ballot | commands/vote.js:116-136 | a ballot is refused exactly when an anonymous voter votes again; otherwise the vote invariant is kept, title, description, mode and option order are unchanged, and every other option is untouched |
| VoteEngine.AnonymousBallot | commands/vote.js:118-124 | a new anonymous voter is appended to the voters and the chosen counter rises by exactly one |
| VoteEngine.AnonymousVoteIsFinal | commands/vote.js:119-122 | after an accepted anonymous ballot, any further ballot by the same user, on any option, is refused |
| VoteEngine.NamedBallotToggles | commands/vote.js:125-135 | a named ballot flips whether the user is listed under the option, stores their display name when added, and leaves every other user's entry and the voters list unchanged; an added user goes last in the option's order, and a removal keeps the other users in their order |
| VoteEngine.NamedBallotTwiceRestores | commands/vote.js:127-135 | two identical named ballots by a user not yet listed under the option give back the original vote exactly |
| VoteEngine.NamedBallotTwiceReorders | commands/vote.js:127-135 | for a user already listed, provided their display name has not changed, two identical ballots restore who is listed and under which names, but move the user to the end of the option's order |
| VoteEngine.NamedBallotTwiceRestoresLast | commands/vote.js:127-135 | for a user who is the option's last entry, two identical ballots under the recorded display name give back the original vote exactly, key order included |
| VoteEngine.NamedBallotsOnTwoOptions | commands/vote.js:131-134 | a named voter can be listed under two different options at once |
| VoteEngine.FieldValue | commands/vote.js:150-164 | a counter renders as a non-empty digit string that reads back as the count; an empty named option renders `-`; a non-empty one, split on newlines, gives the display names in order followed by one empty piece |
| VoteEngine.TallyFieldsPerOption | commands/vote.js:146-167 | every option key has a field named by it, every field names an option, and no two fields share a name: one field per option, each once |
| VoteEngine.GetResult | commands/vote.js:145-179 | the built embed equals `TallyEmbed`: the vote's title, its description when present, and one field per option |
| VoteEngine.WriteTally | commands/vote.js:150-164 | the text built for one option (counter, or names each followed by a newline with the leading dash dropped) equals `FieldValue` |
| VoteEngine.Buttons | commands/vote.js:46-55 | one button per option, in key order, whose custom id and label are both the option's text, which is a key of the options |
| VoteEngine.VoteStore.CreateVote | commands/vote.js:62-102 | a taken title gives `None` and leaves the store unchanged; otherwise the new vote is returned and stored under its title, and the store stays valid |
| VoteEngine.VoteStore.RegisterVote | commands/vote.js:104-143 | a missing title gives "vote ended" and no change; a refused ballot gives "already voted" and no change; otherwise exactly the vote under that title is replaced by the ballot's result and its tally embed is returned |
| RaidReport.GetBestPulls | commands/log.js:49-73 | the loop over the fights builds exactly `BestPulls(fights)` |
| RaidReport.BestPullsShape | commands/log.js:49-73 | the table has a key for exactly the difficulties that occur, and each difficulty lists the bosses attempted at it, once each, in first-seen order |
| RaidReport.BestPullsMinimum | commands/log.js:58-70 | with non-negative percentages, every stored value is the least score (0 for a kill, else the percentage) over that boss's attempts at that difficulty |
| RaidReport.KilledBossShowsZero | commands/log.js:60-70 | a boss killed at some difficulty is stored as 0 there |
| RaidReport.BestPullsOrderIndependent | commands/log.js:49-73 | reordering the fights changes neither the difficulties nor any stored best pull, only the order of the boss keys |
| RaidReport.BestPullUnique | commands/log.js:58-70 | two fight lists with the same elements have the same least score for a boss |
| RaidReport.NamesAtSpec | commands/log.js:51-59 | a boss name is listed at a difficulty exactly when some fight at that difficulty has that name |
| RaidReport.GetBossSection | commands/log.js:75-93 | the section text built for each difficulty equals `BossSections(fights)` |
| RaidReport.BossSections | commands/log.js:75-93 | there is one section for exactly the difficulties that occur |
| RaidReport.WriteSection | commands/log.js:82-90 | the inner loop's text equals `SectionText`: each boss line followed by a newline |
| RaidReport.BossLineShape | commands/log.js:84-88 | a boss with a positive value renders as `name (digits%)` with digits reading back as the value; otherwise as the bare name; and no newline is introduced |
| RaidReport.SectionLines | commands/log.js:82-90 | splitting a section on newlines gives the boss lines in key order, followed by one empty piece |
| RaidReport.GetTopParse | commands/log.js:95-118 | the triple loop yields exactly `TopParse(rankings)` |
| RaidReport.FightBestSpec | commands/log.js:99-113 | a fight has no parse exactly when no rank is positive; otherwise the parse is the first character with the greatest rank: no character outranks it, and every earlier character ranks strictly lower |
| RaidReport.TopParseEmpty | commands/log.js:95-118 | the top parse is empty exactly when no character of any fight has a positive rank |
| RaidReport.TopParseLastFight | commands/log.js:98-115 | a non-empty top parse is the best parse of the last fight with a positive rank, and every later fight has none |
| RaidReport.GetParticipants | commands/log.js:120-146 | the loops build the roster of all role entries: role keys in first-seen order, each with its distinct names in first-seen order |
| RaidReport.AddRole | commands/log.js:127-141 | handling one role entry extends the roster of the entries seen so far by that entry |
| RaidReport.RosterFacts | commands/log.js:120-146 | the roster has exactly the role keys that occur; every list is free of repeats and holds exactly the names seen under that key |
| RaidReport.RolesIndependent | commands/log.js:127-141 | entries of other roles do not change the names collected under a role |
| RaidReport.GetParticipantSection | commands/log.js:148-164 | the section equals `RosterSection`: the role keys in first-seen order, each with its distinct names one per line |
| RaidReport.WriteRoster | commands/log.js:152-161 | the loop keeps the roster's key order and turns each role's names into newline-terminated lines |
| RaidReport.WriteNames | commands/log.js:157-160 | the inner loop's text is each name followed by a newline |
| RaidReport.EmbedReport | commands/log.js:166-196 | the title is the zone, the URL is the reports address plus the code and `/`, and the fields are Heroic and Normal when those difficulties occur, then Top parse, then the role texts at key positions 2, 1 and 0 as inline Damage, Healing and Tanking, absent when there is no such role |
| OrderedMaps.Put | commands/vote.js:79-81 | assigning a key keeps the object well formed: a new key goes last and an existing key keeps its place |
| OrderedMaps.Remove | commands/vote.js:128-130 | deleting a key removes exactly that key's value and keeps the object well formed |
| OrderedMaps.RemoveAfterPut | commands/vote.js:128-134 | deleting a key that was just added restores the object exactly |
| OrderedMaps.PutAfterRemove | commands/vote.js:128-134 | adding back a deleted key restores the values, with the key moved to the end |
| Seqs.DedupFirstSeenOrder | commands/log.js:138-140 | a list built by push-if-absent holds only seen elements, in the order of their first occurrence |
| Seqs.DedupDistinct | commands/log.js:138-140 | a list built by push-if-absent has no repeats |
| Seqs.DedupElements | commands/log.js:138-140 | a list built by push-if-absent holds exactly the elements seen |
| Text.JoinSplit | commands/vote.js:73 | no piece of `split(',')` contains a comma, and joining the pieces with commas gives back the string |
| Text.SplitJoin | commands/vote.js:73 | splitting comma-joined comma-free pieces gives back the pieces |
| Text.TrimSlice | commands/vote.js:74 | trimming removes only whitespace, and only from either end |
| Text.TrimEdges | commands/vote.js:74 | a trimmed piece neither starts nor ends with whitespace |
| Text.NatToStringDecimal | commands/vote.js:166 | `String(n)` of a non-negative integer is a non-empty digit string that reads back as `n` |
| Text.SplitJoinLines | commands/log.js:89 | splitting newline-terminated lines on newlines gives back the lines plus one empty piece |

## Left out

- Discord I/O is left out: the slash-command definitions, `execute`, replies, deferral, ephemeral messages, colours, and the console logging.
- The JSON store is left out: `load('votes')` and `save('votes', …)`. The store is the state of `VoteStore`.
- The HTTP calls are left out: `getAccessToken`, `sendQuery` and `getReport`. Their reply is the `Report` parameter of `EmbedReport`. `getReport` ignores its id and always asks for one hard-coded report code; none of that is modelled.
- `formatTime` and the embed description (a locale-dependent date) are left out.
- The other files are context and are not part of this model: `common/speechRecognition.js`, `common/gpt-3.js`, `bot.js`, `index/events.js`, `modules/logger.js` and `modules/data.js`.
- Concurrency is not modelled. Two interactions updating the same JSON file are not covered.
- Floating point is not modelled. Fight percentages and ranks are integers, and a number renders as its decimal digits.
- Object key order is not modelled in full: JavaScript lists integer-like keys first in ascending order, but the model uses insertion order throughout. This matters only for options or role keys that look like integers. The difficulty-keyed objects are Dafny maps, because only lookups by 3 and 4 read them.
- Text.Trim: the source's regex has the multiline flag, so it also strips whitespace next to line breaks inside a piece. The model trims only the two ends of the piece, which covers every piece without a line terminator.
- VoteEngine.VoteStore.RegisterVote: it requires that the pressed button's id is an option of the vote. Any other id makes the source add to `undefined` (anonymous) or throw (named). The buttons a vote's message carries are built from its options, as `Buttons` states, but `registerVote` finds the vote by the message's embed title alone. A message left over from an ended vote whose title was later reused carries the old labels, so in the source this precondition can fail; the model does not cover that case.
- VoteEngine.VoteStore.CreateVote: names inherited from `Object.prototype` are not modelled. In the source, `title in votes` is also true for titles such as `constructor`, `toString`, `valueOf` or `__proto__`, so `createVote` returns `null` for them; the model stores a new vote under such a title.
- VoteEngine.InitialOptions: the `__proto__` label is not modelled. In the source, `options["__proto__"] = …` goes to the prototype setter and adds no key, yet `n++` still counts it, so `"__proto__,a"` gives the options `{a}`; the model's keys are `__proto__` and `a`.
- VoteEngine.Vote keeps an option's tally by value. The source mutates the stored object through an alias; the model replaces the stored vote instead.
- RaidReport.EmbedReport: the source leaves `inline` unset on the Heroic, Normal and Top parse fields, and the model writes `false` there. A missing role's value is `undefined` in the source and `None` in the model.
- RaidReport.BestPullsMinimum, RaidReport.KilledBossShowsZero and RaidReport.BestPullsOrderIndependent assume non-negative fight percentages. With a negative percentage the running minimum can drop below a kill's 0 and depends on the order of the fights.
- The report's nested JSON (`zone.name`, `fight.encounter.name`, `rankings.data`, `roles[k].characters`) is flattened into the `Report`, `Ranking`, `Role` and `Character` datatypes.
