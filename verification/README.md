# Quiz-it-up session state, in Dafny

quiz-it-up is a live presentation aid. A presenter moves through a deck of
slide images and runs an optional team scoreboard, and every connected
audience display mirrors the changes in real time. Everything that is not
web-framework or socket plumbing lives in one place: the in-memory session
state in `server.js`. That state is the current slide index, the slide list,
the team table and the scoreboard flag. The code changes it in response to
inbound socket events and one HTTP request, and then broadcasts the new
state.

This project models that state machine as pure functions. Each event is a
function from a `State` to a `Transition`, which holds the next state and
the messages broadcast to every party. A rejected or out-of-range event is
a silent no-op that broadcasts nothing.

- `name_order.dfy` (module `NameOrder`): the string order of the default
  array sort, and an insertion sort over it. It also proves that a sorted
  permutation is unique, so the model's sort returns the same list as any
  other correct sort.
- `slides.dfy` (module `Slides`): `loadSlides` as a function of the
  directory contents. It keeps the `.png` names in any letter case, sorts
  them and prefixes each with `/slides/`.
- `teams.dfy` (module `Teams`): a team record, the two placeholder teams,
  and the table that `configure-teams` builds from its `teams` array.
- `session.dfy` (module `Session`): the state, the outbound messages, the
  start-up state, the initial push to a new connection, and one function per
  handler.
- `runs.dfy` (module `Runs`): the events as one datatype, runs of events,
  and the properties that span several events.

The slide index does not satisfy the invariant one might expect,
`0 <= index < length` whenever slides exist. The code starts at index 0
even when the directory is empty. A reload onto an empty directory sets the
index to `min(index, -1) = -1`. A later reload onto a non-empty directory
keeps `-1`, because `min(-1, n - 1) = -1`. The invariant that does hold is
`Session.IndexInvariant`: the index is at least -1, and it is below the
length except for the start-up index 0 on an empty list. The model follows
the code, not the stricter invariant `0 <= index < length`.

## Model

| member | source | states |
|---|---|---|
| NameOrder.LessEqTotal | server.js:45 | any two file names are comparable by the sort's string order |
| NameOrder.LessEqAntisymmetric | server.js:45 | two names that each sort no later than the other are the same name |
| NameOrder.LessEqTransitive | server.js:45 | the sort's string order is transitive |
| NameOrder.CommonPrefixKeepsOrder | server.js:45-47 | putting the same prefix in front of two names does not change how they compare, so the prefixed list stays sorted |
| NameOrder.Insert | server.js:45 | inserting a name adds exactly that name, and keeps a sorted list sorted |
| NameOrder.Sort | server.js:45 | the sorted list is a permutation of the input, duplicates included, and is in ascending order |
| NameOrder.SortedPermutationUnique | server.js:45 | two sorted lists with the same elements are equal |
| NameOrder.SortIsCanonical | server.js:45 | any sorted permutation of the input equals the model's sort, so any correct sort gives the same slide order |
| Slides.KeepPng | server.js:43-44 | the filter keeps each name whose lower-cased form ends in `.png`, as often as it occurs, drops every other name, and never grows the list |
| Slides.WithPrefixCounts | server.js:47 | prefixing is one to one: each `/slides/` path occurs as often as its file name did |
| Slides.WithPrefixSorted | server.js:45-47 | prefixing a sorted list of names gives a sorted list of paths |
| Slides.LoadSlides | server.js:34-48 | no directory gives no slides; otherwise every result starts with `/slides/`, path `/slides/n` occurs as often as `n` does in the directory when `n` ends in `.png` in any case and never otherwise, the result is sorted, and it is no longer than the listing |
| Slides.LoadSlidesDetermined | server.js:43-47 | the contract of LoadSlides admits exactly one list |
| Teams.BuildTeams | server.js:92-99 | the table's ids are exactly the supplied ids, and each id maps to its last entry's name and score, or 0 when that entry has no score |
| Teams.LastEntryExists | server.js:94-99 | every supplied id has a last entry carrying it |
| Teams.BuildTeamsDetermined | server.js:92-101 | any map with the supplied ids and the last-entry values is the table BuildTeams builds |
| Session.Start | server.js:20-51 | start-up state: slides loaded from the directory, index 0 (a displayed slide when any exist), exactly the teams `team1` named "Team 1" and `team2` named "Team 2", both at score 0, scoreboard hidden, index invariant established |
| Session.Connect | server.js:117-125 | a new connection is sent the slide state with index, list and total, then the team table, then the scoreboard flag |
| Session.NextSlide | server.js:128-137 | the index goes up by one exactly when it is below the last slide; otherwise the state is unchanged and nothing is sent; only the index changes, one slide update carries the new state, and the invariant is kept |
| Session.PrevSlide | server.js:139-148 | the index goes down by one exactly when it is above 0, and then one slide update carries the new state; otherwise a silent no-op; only the index changes, and the invariant is kept |
| Session.GoToSlide | server.js:150-159 | the index becomes `i` and a slide is shown exactly when `0 <= i < length`; any other `i` is a silent no-op; only the index changes |
| Session.ReloadSlides | server.js:162-170 | the list is the freshly loaded one; the index is the old index or the new last position, whichever is smaller, so it is below the new length; an index of at least -1 stays at least -1; teams and flag untouched; one slide update is always sent |
| Session.UpdateScore | server.js:173-180 | a known team's score goes up by exactly `change`, with no floor, and keeps its name; every other team is unchanged; an unknown id is a silent no-op |
| Session.ResetScores | server.js:182-188 | every team keeps its id and name and has score 0; nothing else changes; one score update is always sent |
| Session.UpdateTeamNames | server.js:190-194 | `team1` and `team2` take the given name only when it is non-empty; every score and every other team is unchanged; one score update is always sent |
| Session.ToggleScoreboard | server.js:197-200 | the flag becomes the given value, nothing else changes, and the value is broadcast |
| Session.ConfigureTeams | server.js:84-106 | a body whose `teams` is missing or not an array gets 400 "Invalid teams data" and changes nothing; an array replaces the whole table with exactly its ids, last entry winning, and the table is broadcast |
| Runs.StepKeepsIndexInvariant | server.js:128-200 | no event breaks the index invariant |
| Runs.RunKeepsIndexInvariant | server.js:128-200 | any run of events keeps the index invariant |
| Runs.ReachableKeepsIndexInvariant | server.js:20-200 | every state reachable from start-up satisfies the index invariant, so the index is never below -1 |
| Runs.NavigationStaysOnSlides | server.js:128-159 | from a displayed slide, any run of next, previous and jump events keeps a slide displayed and changes nothing but the index |
| Runs.ReloadKeepsMinusOne | server.js:162-164 | a reload that finds no `.png` file, or no directory, gives an empty list and index -1, and a later reload keeps -1 even when slides are back |
| Runs.ReloadIdempotent | server.js:162-170 | reloading the same directory twice gives the same state and broadcast as reloading it once |
| Runs.MinusOneRecovery | server.js:128-148 | from index -1 with slides present, next shows the first slide and previous does nothing |
| Runs.NextThenPrev | server.js:128-148 | advancing from a displayed slide that is not the last, then stepping back, restores the state |
| Runs.PrevThenNext | server.js:128-148 | stepping back from a slide past the first, then advancing, restores the state |
| Runs.ScoresAccumulate | server.js:173-180 | a run of score changes on one known team adds their sum to its score, with no floor, and leaves the name, the other teams and the rest of the state alone |
| Runs.ScoreExamples | server.js:176-177 | +5, -3, +2 from zero gives 4; +2, -10 from zero gives -8 |
| Runs.ScoreChangeUndone | server.js:173-180 | a score change followed by the opposite change restores the state |
| Runs.ResetIdempotent | server.js:182-188 | resetting twice gives the same result as resetting once |
| Runs.ResetForgetsScoreChanges | server.js:173-188 | a reset after a score change gives the same result as a reset alone |
| Runs.RenameIdempotent | server.js:190-194 | sending the same team names twice gives the same result as sending them once |
| Runs.ConfigureExample | server.js:93-101 | configuring teamA (Red, 10) and teamB (Blue, no score) gives exactly those two teams, teamB at 0, and `team1` is gone |
| Runs.ConfigureRejectsEmptyBody | server.js:88-90 | a body without `teams` gets status 400 and leaves the state unchanged |
| Runs.NewPartySeesScoreboard | server.js:114-200 | the flag is whatever the last toggle set, and a party connecting afterwards is told that value |
| Runs.StepKeepsPartyInSync | server.js:117-200 | a party holding the current state that receives one event's broadcasts, keeping the last message of each kind, holds what a new connection would be sent after the event |
| Runs.PartyStaysInSync | server.js:117-200 | a party that connected before a run and received all of the run's broadcasts holds exactly what a party connecting after the run is sent |

## Left out

- Express and socket.io wiring, static file serving, HTML routes, the read-only `GET /api/slides`, `/api/scores` and `/api/teams` snapshots, and `server.listen`: these are framework I/O. The snapshots return the same data as the messages `Session.Connect` sends.
- Broadcast delivery: a transition returns the messages it would broadcast, and nothing models parties receiving them. `disconnect` changes no state and is not modelled as an event.
- The filesystem in `loadSlides`: the directory becomes the `Slides.Listing` input, and creating a missing directory is not modelled.
- Console logging, and the 500 "Server error" branch of configure-teams. That branch only catches JavaScript runtime errors, for example a `null` entry in `teams`.
- Slides.LoadSlides: the lower-casing folds only `A`-`Z`. JavaScript `toLowerCase` covers all of Unicode, but no character outside ASCII lower-cases to `.`, `p`, `n` or `g`, so the `.png` test is not affected.
- NameOrder.Sort: compares Unicode scalar values (Dafny characters), while JavaScript compares UTF-16 code units. The two orders agree on names made only of Basic Multilingual Plane characters.
- Session.UpdateTeamNames: requires `team1` (or `team2`) to exist when a non-empty name is given for it. The source dereferences that team unguarded and throws a TypeError if a reconfiguration has removed it.
- Session.UpdateScore: ids that name inherited object properties, such as `toString`, are treated as unknown. In the source, `teamScores[team]` finds such a property and the handler goes on with it.
- Session.GoToSlide: the index is an integer. A fractional index passes the JavaScript bounds test and is stored as is; this is not modelled.
- Session.UpdateScore: `change` is an integer. A non-number `change` makes JavaScript concatenate strings; this is not modelled.
- Teams.BuildTeams: ids, names and scores are typed. `team.score || 0` is modelled only for an absent score (0) and an integer score (kept). An id of `__proto__` is an ordinary key here. In the source, assigning it goes through the prototype setter, so no own key is created. That team is then skipped by `resetScores` and left out of the `scoreUpdate` payload, yet `updateScore` still finds it and changes it.
- Session.UpdateScore: scores and changes are exact unbounded integers. The source keeps them as double-precision numbers, so above 2^53 the addition rounds: 9007199254740992 plus 1 stays 9007199254740992 there.
- Session.ToggleScoreboard: the new flag is a boolean. The source stores `data.visible` as sent, which is `undefined` when the field is absent, and broadcasts that value.
