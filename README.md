# Scoreboard state model

A Dafny model of the state logic of a small React score-keeping app for
party games. Players are registered once. Each round, players who tied are
dragged into a group ("score"), and every member of a group earns as many
points as the group has members. The model covers:

- the id-based player registry (`src/usePlayers.tsx`) and its older variant (`src/PlayerContext.tsx`, whose `resetPlayers` is `Registry.ResetPlayers`);
- the grouped-score ledger (`src/useGame.tsx`): player operations, `getRound`, `addToScore`, `createScore`, `removeFromScore`;
- the older `{playerId, value}` ledger and the one-shot migration of the name-keyed schema before it (`src/GameContext.tsx`);
- the results page: points, maximum, ranking and table cells (`src/Results.tsx`);
- the round screen: round lookup, drop dispatch, grouped/ungrouped split, group cards (`src/game/GamePage.tsx`);
- the two early score sheets whose rows map player names to numbers (`src/App.tsx`, `src/App.jsx`);
- the list of names typed in before a game (`src/routes/index.lazy.tsx`).

Every updater the source hands to `setState` is a pure Dafny function from
the old state to the new one. The source changes things in place in a few
places, and there the model does too:

- The migration's `idFor` memo is the class `GameContext.PlayerIdMemo`, and the conversion runs as nested loops (`GameContext.Migrate`), proved equal to the specification `GameContext.Migration`.
- `getRound` reads and appends, so it is a method of `Ledger.GameStore`.
- The points loop is `Results.Points`, and the in-place sort is `Results.SortByPoints` on an array.
- The page's `draggingPlayer` is the class `GamePage.DragSession`.
- The score-sheet cell edit writes into a row in place (`ScoreTable.EditCell`).

Ids drawn from `crypto.randomUUID()` or `createId()` are parameters. In the
migration, `createId` is a supply `nat -> Id`: its k-th draw is `createId(k)`.
Numbers read from the page come in already parsed, as an `Option<int>` in
which `None` stands for `NaN`.

The handlers of `src/App.jsx` below do what those of `src/App.tsx` do.
The one difference in the cell edit is what it parses: `src/App.jsx:38` parses
`event.target.valueAsNumber`, and `src/App.tsx:216` parses `event.target.value`.
Both arrive in the model as the same parsed `Option<int>`. The handlers are:

- totals, line 29;
- cell edit, lines 37-45;
- row delete, line 52;
- "Fertig", lines 59-60 and 86;
- wizard click, line 103.

So they are modelled by the same `ScoreTable` members. The single reset of
`src/App.jsx` (lines 61-64) is `ScoreTable.ResetAll`. The `Intro` draft list
in `src/App.tsx` (lines 53-62, 84 and 94) is the same code as
`src/routes/index.lazy.tsx`, and the `Draft` members model both.

The code enforces less than one might expect:

- `createScore` only appends a group. It does not take its players out of their other groups in the round, and it prunes nothing: `Ledger.CreateScoreCanGroupAPlayerTwice`.
- `addToScore` moves the player, but never prunes a group that falls below two members: `Ledger.AddToScoreCanLeaveASingleton`.
- Only `removeFromScore` prunes. It prunes every group of the round with fewer than two members, not only the group the player left.
- `getRound(n)` looks a round up by its position `n` in `rounds`, not by its `number` field. On a miss it appends a round numbered `n`: `Ledger.GetRoundTwiceOnEmptyGame`.

## Model

| member | source | states |
|---|---|---|
| `Registry.CreatePlayer` | src/usePlayers.tsx:82-84 | a new player has the fresh id and an empty name |
| `Registry.Initial` | src/usePlayers.tsx:24-27 | a fresh registry holds exactly one player, with an empty name; its ids are distinct |
| `Registry.AddPlayer` | src/usePlayers.tsx:29-34 | the old list is a prefix of the new one, which is one longer; the new player has the fresh id and the name `""` |
| `Registry.AddPlayerKeepsIdsDistinct` | src/usePlayers.tsx:82-84 | given an id no player has, ids stay pairwise distinct after `addPlayer` |
| `Registry.RemovePlayer` | src/usePlayers.tsx:36-46 | exactly the players with another id remain; no player with that id is left; an absent id changes nothing |
| `Registry.RemovePlayerKeepsOrder` | src/usePlayers.tsx:39-41 | removal distributes over concatenation, so the kept players keep their order |
| `Registry.UpdatePlayer` | src/usePlayers.tsx:48-61 | length and id sequence are kept; players with that id get the name; all others are identical; an absent id changes nothing |
| `Registry.UpdatePlayerRenamesExactlyOne` | src/usePlayers.tsx:51-56 | with distinct ids and a registered id, exactly one player has that id afterwards, named as asked, and ids stay distinct |
| `Registry.ResetPlayers` | src/usePlayers.tsx:63-65 | the registry is empty |
| `Ledger.DefaultGame` | src/useGame.tsx:219-225 | no players, no rounds, the fresh game id |
| `Ledger.AddPlayer` | src/useGame.tsx:50-59 | rounds and game id unchanged; one player with the fresh id and name `""` appended after the old ones |
| `Ledger.RemovePlayer` | src/useGame.tsx:61-72 | rounds and game id unchanged; exactly the players with another id remain |
| `Ledger.UpdatePlayer` | src/useGame.tsx:74-88 | rounds and game id unchanged; ids and length kept; only players with that id are renamed |
| `Ledger.WithoutKeepsOrder` | src/useGame.tsx:122 | taking a player id out of a group keeps every other member in its place in the order |
| `Ledger.AddToGroup` | src/useGame.tsx:110-127 | the group keeps its id; the target group holds its old members, in order, plus the player; any other group holds its old members except the player |
| `Ledger.AddToRound` | src/useGame.tsx:108-131 | same number, same number of groups, same group ids; the target group holds the player, unchanged if it already did, else with the id appended once; every other group is its old members without the player; the player is in no group but the target |
| `Ledger.AddToScore` | src/useGame.tsx:105-136 | players and game id unchanged; rounds with another number unchanged; the matching round is `AddToRound` of it; no matching round leaves the game unchanged |
| `Ledger.AddToRoundKeepsGroupsDuplicateFree` | src/useGame.tsx:113-117 | if no group lists a member twice before `addToScore`, none does after |
| `Ledger.AddToRoundKeepsGroupedOnce` | src/useGame.tsx:110-124 | with distinct group ids, a round in which every player is in at most one group keeps that property |
| `Ledger.AddToScoreCanLeaveASingleton` | src/useGame.tsx:118-123 | moving `a` out of the pair `a, b` into another group leaves the group `[b]` in place (no pruning) |
| `Ledger.AppendScore` | src/useGame.tsx:147 | the old groups are a prefix of the new ones, and the new group is last |
| `Ledger.CreateScore` | src/useGame.tsx:138-155 | players and game id unchanged; rounds with another number unchanged; the matching round gains exactly one last group whose members are the given players' ids in order; no matching round leaves the game unchanged |
| `Ledger.CreateScoreCanGroupAPlayerTwice` | src/useGame.tsx:141-148 | grouping `a` with `c` while `a` is grouped with `b` leaves `a` in two groups of the round |
| `Ledger.Stripped` | src/useGame.tsx:161-167 | each group keeps its id and loses exactly the player's id |
| `Ledger.Pruned` | src/useGame.tsx:168 | exactly the groups with more than one member remain |
| `Ledger.PrunedKeepsOrder` | src/useGame.tsx:168 | pruning distributes over concatenation, so the surviving groups keep their order and multiplicity |
| `Ledger.RemoveFromRound` | src/useGame.tsx:159-170 | no remaining group holds the player, and every remaining group has at least two members; each remaining group is an old group without the player; every old group still of size two or more without the player is kept |
| `Ledger.RemoveFromRoundKeepsOrder` | src/useGame.tsx:159-170 | for any split of a round's groups, the groups left from the first part come first, in order, followed by those left from the second |
| `Ledger.RemoveFromScore` | src/useGame.tsx:157-175 | players and game id unchanged; rounds with another number unchanged; the matching round is `RemoveFromRound` of it; no matching round leaves the game unchanged |
| `Ledger.RemoveFromRoundNoop` | src/useGame.tsx:161-168 | a round with the player in no group and every group of two or more is left exactly as it is |
| `Ledger.RemoveFromScoreIdempotent` | src/useGame.tsx:157-175 | applying `removeFromScore` twice equals applying it once |
| `Ledger.GameStore.constructor` | src/useGame.tsx:45-48 | the state cell starts with the given game |
| `Ledger.GameStore.GetRound` | src/useGame.tsx:90-103 | an in-range position returns that round and changes nothing; otherwise it returns `{number: n, scores: []}` and appends exactly that round |
| `Ledger.GetRoundTwiceOnEmptyGame` | src/useGame.tsx:90-103 | asking an empty game twice for round 1 appends two rounds numbered 1 |
| `PlayerContext.AddPlayer` | src/PlayerContext.tsx:31-36 | the given player is appended unchanged after the old list |
| `PlayerContext.AddPlayerAllowsRepeatedIds` | src/PlayerContext.tsx:33 | appending a player whose id is taken leaves two players with that id |
| `PlayerContext.UpdatePlayerName` | src/PlayerContext.tsx:38-47 | length and order kept; players with that id become `{id, name: newName}`, all others are unchanged |
| `PlayerContext.UpdatePlayerNameAgreesWithRegistry` | src/PlayerContext.tsx:38-47 | the older rename is the same function as the registry's `updatePlayer` |
| `PlayerContext.HasPlayers` | src/PlayerContext.tsx:37 | true exactly when some player is in the list |
| `GameContext.AddRound` | src/GameContext.tsx:28-33 | the old rounds are a prefix; the given round is appended last |
| `GameContext.RemoveRound` | src/GameContext.tsx:34-39 | an in-range index removes exactly that round, the others keep their order; any other index changes nothing |
| `GameContext.ResetGame` | src/GameContext.tsx:40-42 | no rounds |
| `GameContext.IsOldGame` | src/GameContext.tsx:120-122 | true exactly for the old array form |
| `GameContext.IdForStep` | src/GameContext.tsx:87-92 | after one `idFor(name)` the memo has an id for `name` |
| `GameContext.MemoAfterKeys` | src/GameContext.tsx:86-92 | after a run of `idFor` calls the memo has an id for exactly the names it was called on |
| `GameContext.MemoIdsDrawn` | src/GameContext.tsx:88-90 | every id in the memo is one of the draws made so far |
| `GameContext.IdForDrawsOnFirstOccurrence` | src/GameContext.tsx:88-91 | a call draws one id on a name's first occurrence and none on a repeat; the new name gets the next draw |
| `GameContext.MemoStable` | src/GameContext.tsx:87-92 | a name that has an id keeps it, unchanged, through any later calls |
| `GameContext.MemoInjective` | src/GameContext.tsx:86-92 | with a supply that never repeats, distinct names get distinct ids |
| `GameContext.MigrateRound` | src/GameContext.tsx:95-100 | one score per entry, in entry order, with the value kept and the name's id |
| `GameContext.Migration` | src/GameContext.tsx:93-102 | one round per old round, in order; one score per entry, in order, with the value kept and `playerId` the migration's id for the name |
| `GameContext.EntryStep` | src/GameContext.tsx:96-97 | the `idFor` call on an entry extends the memo by that name, and returns the id the whole migration gives the name |
| `GameContext.MigrationNamesAgree` | src/GameContext.tsx:86-99 | two entries get the same `playerId` exactly when they have the same name, given a supply that never repeats |
| `GameContext.PlayerIdMemo.constructor` | src/GameContext.tsx:86 | the memo starts empty, with no draws |
| `GameContext.PlayerIdMemo.IdFor` | src/GameContext.tsx:87-92 | the memo moves on by one `IdForStep`, and the returned id is the memo's id for the name |
| `GameContext.ConvertEntry` | src/GameContext.tsx:96-99 | converting one entry advances the memo by its name and yields the score with the migration's id for the name and the entry's value |
| `GameContext.ConvertRound` | src/GameContext.tsx:94-100 | the loop over one old round's entries yields `MigrateRound` of it and advances the memo by its names |
| `GameContext.Migrate` | src/GameContext.tsx:93-103 | the nested loops produce exactly `Migration` |
| `GameContext.MigrateStored` | src/GameContext.tsx:84-106 | an old array is converted to `Migration` of it; a current game is returned unchanged |
| `GameContext.MigrationExample` | src/GameContext.tsx:93-102 | one old round of Alice 3 and Bob 1 becomes one round `[{createId(0), 3}, {createId(1), 1}]` |
| `Results.FindScore` | src/Results.tsx:31-33 | none exactly when no group holds the player; otherwise the first group that holds it |
| `Results.Cell` | src/Results.tsx:210-212 | 0 exactly when no group holds the player; otherwise the size of the first group that holds it |
| `Results.CellTakesFirstGroup` | src/Results.tsx:210-212 | a player in two groups of a round, of sizes 2 and 3, is shown 2, the size of the first |
| `Results.PointsOfConcat` | src/Results.tsx:30-35 | points over two stretches of rounds add up |
| `Results.PointsOfNeverGrouped` | src/Results.tsx:30-35 | a player in no group of any round has 0 points |
| `Results.Points` | src/Results.tsx:28-37 | the loop's result is the sum of the player's cells over all rounds |
| `Results.MaxPoints` | src/Results.tsx:38-40 | at least 0 and at least every player's points; 0 or one of the points; 0 with no players |
| `Results.Stars` | src/Results.tsx:42 | with a positive maximum, points between 0 and the maximum give between 1 and 5 stars; 0 points give 1 star and the maximum gives 5 |
| `Results.StarsOrderMatchesPoints` | src/Results.tsx:42 | with a positive maximum, stars compare exactly as points do |
| `Results.Unranked` | src/Results.tsx:28-37 | one entry per player, in registry order, with the player's points |
| `Results.SwapDown` | src/Results.tsx:48 | exchanges two neighbouring entries; the multiset of entries is kept |
| `Results.InsertDown` | src/Results.tsx:48 | extends the ranked prefix by one entry, permuting only; nothing moves when all points are equal |
| `Results.SortByPoints` | src/Results.tsx:48 | afterwards points are non-increasing; the entries are a permutation of the old ones; equal points everywhere leave the order as it was |
| `Results.PlayerStats` | src/Results.tsx:27-50 | one entry per player, a permutation of the unranked entries, ranked by points |
| `GamePage.FindRound` | src/game/GamePage.tsx:35-40 | none (the redirect) exactly when the parameter is not a number or no round has that number; otherwise the first round with that number |
| `GamePage.DropCalls` | src/game/GamePage.tsx:49-65 | no target gives no call; every call is for the page's round and the dragged player; a drop on the dragged player's own card creates no group |
| `GamePage.DropOnOtherPlayer` | src/game/GamePage.tsx:51-57 | a drop on another player's card gives exactly `createScore(round, [target, dragged])` |
| `GamePage.DropOnScore` | src/game/GamePage.tsx:58-60 | a drop on a group card gives exactly `addToScore(round, scoreId, dragged)` |
| `GamePage.DropOnBackground` | src/game/GamePage.tsx:61-63 | a drop on the background gives exactly `removeFromScore(round, dragged)` |
| `GamePage.ApplyCall` | src/game/GamePage.tsx:56-62 | a call never touches the players or the game id, nor any round with another number |
| `GamePage.ApplyCallAsWritten` | src/game/GamePage.tsx:25-31 | as written, exactly the background call fails; the others act as `ApplyCall` |
| `GamePage.BackgroundDropThrowsAsWritten` | src/game/GamePage.tsx:29 | every background drop throws instead of ungrouping |
| `GamePage.BackgroundDropUngroups` | src/game/GamePage.tsx:61-63 | corrected, after a background drop the player is in no group of the round and every group there has two or more members |
| `GamePage.ScoreDropGroupsPlayer` | src/game/GamePage.tsx:58-60 | after a drop on a group card the player is in that group of the round and in no other |
| `GamePage.PlayerDropPairs` | src/game/GamePage.tsx:51-57 | after a drop on another player's card the round gains exactly the group `[target, dragged]` |
| `GamePage.DragSession.constructor` | src/game/GamePage.tsx:33 | no player is being dragged at first |
| `GamePage.DragSession.DragStart` | src/game/GamePage.tsx:44-48 | a drag of an item carrying a player records that player; any other drag changes nothing |
| `GamePage.DragSession.DragEnd` | src/game/GamePage.tsx:49-65 | the calls are the dispatch of the recorded player, and afterwards no player is being dragged |
| `GamePage.DragSession.DragEndAsWritten` | src/game/GamePage.tsx:49-65 | as written: the calls are the dispatch of the recorded player, and the dragged player is cleared only when no call threw |
| `GamePage.DraggingAfterEndAsWritten` | src/game/GamePage.tsx:61-64 | a background call throws before the reset at line 64, so the dragged player stays; without one, it is cleared |
| `GamePage.BackgroundDropKeepsDraggingAsWritten` | src/game/GamePage.tsx:61-64 | as written, a background drop leaves the dragged player set |
| `GamePage.DragOfPlayer` | src/game/GamePage.tsx:44-64 | as written: a drag of a player card leads to the drop's calls, all naming that player; the player is still dragged afterwards exactly when a background call threw |
| `GamePage.PlayersWithoutScores` | src/game/GamePage.tsx:103-105 | exactly the registry players in no group of the round |
| `GamePage.PlayersWithoutScoresKeepsOrder` | src/game/GamePage.tsx:103-105 | the ungrouped list keeps registry order |
| `GamePage.UngroupedIffNoCell` | src/game/GamePage.tsx:103-105 | a player is listed as ungrouped exactly when the player's results cell for the round is 0 |
| `GamePage.FindPlayer` | src/game/GamePage.tsx:127 | none exactly when no registered player has the id; otherwise the first registered player with that id |
| `GamePage.DisplayPlayers` | src/game/GamePage.tsx:125-132 | one entry per member id, with that id; the first registry player with that id where one exists, else `{id, name: "???"}` |
| `GamePage.CardCount` | src/game/GamePage.tsx:253-265 | the printed count is the number of player cards the group card stacks, the members shown followed by the preview player |
| `GamePage.ScorePreview` | src/game/GamePage.tsx:233-240 | a preview is shown exactly when a dragged player who is not yet a member hovers over the group card |
| `GamePage.PlayerPreview` | src/game/GamePage.tsx:161-163 | a preview is shown exactly when another dragged player hovers over the card |
| `GamePage.ScoreCardCountPredictsDrop` | src/game/GamePage.tsx:253 | while a player hovers, a group card counts as many points as the group will have after the drop |
| `GamePage.PlayerCardCountPredictsDrop` | src/game/GamePage.tsx:162-171 | a hovered player card counts 2, the number of ids in the group `createScore` makes of the two players |
| `ScoreTable.Total` | src/App.tsx:196-199 | no rows total 0; with no negative entries the total is not negative |
| `ScoreTable.TotalConcat` | src/App.tsx:196-199 | totals over two stretches of rows add up |
| `ScoreTable.TotalReplaceRow` | src/App.tsx:215-223 | replacing one row moves each total by exactly that row's difference |
| `ScoreTable.SubmitName` | src/App.tsx:158-164 | a non-empty name not yet present is appended; otherwise nothing changes; a non-empty name is present afterwards |
| `ScoreTable.SubmitNameKeepsDistinct` | src/App.tsx:161 | names stay pairwise distinct |
| `ScoreTable.SubmitNameIdempotent` | src/App.tsx:161 | submitting a name twice is submitting it once |
| `ScoreTable.EditCell` | src/App.tsx:215-223 | only row `i`'s entry for the player changes, to the number or `undefined`; the copy handed out is the new rows; that player's total moves by new minus old (`undefined` counts 0); every other total is unchanged |
| `ScoreTable.DeleteRow` | src/App.tsx:232-234 | an in-range index removes exactly that row, the others keep their order; any other index changes nothing |
| `ScoreTable.TotalAfterDelete` | src/App.tsx:233 | deleting a row takes exactly its entries off every total |
| `ScoreTable.AddRow` | src/App.tsx:243 | the old rows are a prefix; the wizard row is appended last |
| `ScoreTable.TotalAfterAddRow` | src/App.tsx:292-295 | "Fertig" adds exactly the wizard row's entries to every total |
| `ScoreTable.ResetAll` | src/App.tsx:247-250 | no players and no rows |
| `ScoreTable.ResetScores` | src/App.tsx:251-253 | players kept, no rows, so every total is 0 |
| `ScoreTable.WizardOpen` | src/App.tsx:274-277 | the wizard row starts with no points for anyone |
| `ScoreTable.WizardClick` | src/App.tsx:321-326 | the clicked player's entry becomes the value, or 0 for `NaN`; no other entry changes |
| `ScoreTable.WizardClickThenAdd` | src/App.tsx:325 | a click followed by "Fertig" adds the clicked value to that player's total and the row's other entries to the others |
| `ScoreTableJs.SubmitName` | src/App.jsx:9-15 | any non-empty name is appended; the empty name changes nothing |
| `ScoreTableJs.SubmitNameAllowsDuplicates` | src/App.jsx:12 | submitting a name already present yields a duplicate |
| `ScoreTableJs.SubmitNameAgreesOnNewNames` | src/App.jsx:12 | on a new name both sheets' `onSubmit` agree |
| `Draft.Initial` | src/routes/index.lazy.tsx:24 | one empty entry |
| `Draft.DeletePlayer` | src/routes/index.lazy.tsx:27-28 | an in-range index removes exactly that entry, the others keep their order; any other index changes nothing |
| `Draft.UpdatePlayer` | src/routes/index.lazy.tsx:29-34 | same length; only the entry at the index is replaced |
| `Draft.AddEmpty` | src/routes/index.lazy.tsx:70 | the old entries are a prefix, and `""` is appended |
| `Draft.Submit` | src/routes/index.lazy.tsx:36-37 | exactly the non-empty names are passed on |
| `Draft.SubmitKeepsOrder` | src/routes/index.lazy.tsx:37 | submitting distributes over concatenation, so the names keep their order |
| `Draft.AddEmptyDoesNotChangeSubmit` | src/routes/index.lazy.tsx:70 | an added empty entry never reaches the submitted list |
| `Draft.FillingInAddsToSubmit` | src/routes/index.lazy.tsx:29-37 | filling in an empty entry puts the name into the submitted list at its place, one longer |
| `Draft.InitialState` | src/routes/index.lazy.tsx:78 | the start screen opens with start disabled and no delete button |
| `Draft.StartDisabled` | src/routes/index.lazy.tsx:78 | the start button is disabled exactly when no two entries are filled in |
| `Draft.SubmitTwoIffTwoFilled` | src/routes/index.lazy.tsx:37-78 | at least two names are submitted exactly when two different entries are filled in |
| `Draft.DeleteAllowed` | src/routes/index.lazy.tsx:60 | a delete button is shown exactly when no delete would leave the draft without an entry |

## Left out

- Persistence: `useLocalState`, `localStorage` and the JSON round trip (`src/useLocalState.tsx`, `src/useGame.tsx:205-217`, and the storage hooks of both score sheets). Each state is a plain value.
- The migration's write-back effect (`src/GameContext.tsx:107-111`). It is about effect timing and storage.
- Id generation. `crypto.randomUUID()` ids are parameters, and `createId` is a supply `nat -> Id`. The `./createId` module that `src/GameContext.tsx:12` imports, and the `./Player` module it takes the `Player` type from (line 9), are not part of this model; a player is `{id, name}`.
- Star ratings as floating point. `Results.Stars` is over the reals and needs a positive maximum. With a maximum of 0 the source computes `NaN`, the comparator then returns `NaN`, and the entries keep their order. That case is captured only as "all points equal ⇒ unchanged" in `Results.SortByPoints`.
- Results.SortByPoints: states ranking, permutation and the all-equal case. It does not state that entries with equal points keep their relative order (JavaScript's stable sort).
- React mechanics: context lookup and its "missing" errors, `useCallback` dependency lists and stale closures. For example, `updatePlayerName` keeps the `players` of its first render. The model uses the current state.
- Ledger.GameStore.GetRound: the source reads the rendered `game` but appends through an updater on the latest state. The model has one state, so it does not capture a difference between the two.
- DOM reads: `document.getElementById`, `value`, `valueAsNumber`, and `parseInt`'s text parsing. The parsed value is an input: `Option<int>`, where `None` is `NaN`. Non-integer numbers from `valueAsNumber` are not modelled.
- ScoreTable.Total: a row is a map of its own keys. In the source a row is a plain object, so `score[p] ?? 0` also finds keys inherited from `Object.prototype`: for a player named `constructor`, `toString`, `valueOf` or the like, a row without that own key yields a function, and the reduce turns the total into a string. The model reads such a row as 0.
- ScoreTable.EditCell: for a player named `__proto__`, the source's `score[player] = n` goes to the inherited `__proto__` setter, which ignores a number, so the edit is lost; the model stores the entry.
- ScoreTable.EditCell: the row object is shared between the old and the new array. The model writes the new row into an array slot, so aliasing of row objects beyond that slot is not captured.
- The ordering of integer-like keys in `Object.entries`. An old round is given as its entries, in the order `Object.entries` lists them.
- Drag gestures, layout, dialogs, routing and navigation. A drop is given as the droppable it ended on. Also left out: `src/game/Header.tsx`, `src/Intro.tsx`, the reset button components, `src/routes/game.lazy.tsx`, `src/main.tsx`.
- `addRound` and `resetGame` on the grouped-score context. `src/game/GamePage.tsx:30` and `src/Intro.tsx:22` use them, but the provider at `src/useGame.tsx:177-188` does not define them, and no behaviour is invented for them.
- GamePage.ApplyCall: requires a recorded dragged player. The source passes `draggingPlayer!`, which would be `null` when a drag did not start on a player card. Every draggable on the page carries a player (`GamePage.DragOfPlayer`).

## Findings

| source | as written | input that shows it | evidently intended | confidence | as-written member | corrected member |
|---|---|---|---|---|---|---|
| src/game/GamePage.tsx:29 | the page destructures `removeFromScores`, which the provider (`src/useGame.tsx:177-188`) does not supply, so the background drop calls `undefined` | drag a grouped player and drop it on the background | call the provider's `removeFromScore`, taking the player out of the round's groups | not executed | `GamePage.ApplyCallAsWritten` (`GamePage.BackgroundDropThrowsAsWritten`); the throw also skips the reset at line 64, so the dragged player stays set: `GamePage.DragSession.DragEndAsWritten` (`GamePage.BackgroundDropKeepsDraggingAsWritten`) | `GamePage.ApplyCall` (`GamePage.BackgroundDropUngroups`); `GamePage.DragSession.DragEnd` clears the dragged player |
