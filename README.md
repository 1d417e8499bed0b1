# 30 Segundos — verified model of the round engine

This project models the backend core of "30 Segundos", a team word-guessing
game for two teams. The model covers these parts:

- **Match registry** (`Games.GameService`). Matches are keyed by a
  four-character identifier. Each match has a lifecycle (waiting, playing,
  finished), a round counter, and capped counters of challenge and cursed
  rounds.
- **Round kinds.** Each prepared round is a challenge, a cursed round or a
  normal round. A normal round deals a two-sided word card through the word
  service.
- **Resolutions.** Three operations resolve a round. `confirm_round` scores a
  normal round as hits plus bonus hits. `resolve_challenge` moves +5/−2 and
  `resolve_cursed` moves +2/−5. All three move the acting team on the 0..30
  board, detect the winner, pass the turn and clear the round.
- **Match model** (`GameModel`). Teams with a cyclic player index, the 1↔2 turn
  pointer, the cap predicates and the identifier format.
- **Standalone team model** (`TeamModel`), which the models package also
  exports.
- **Word service** (`Words`, `Themes`). The per-match pool of dealt words, the
  theme/level filter, one reset-and-retry when the pool runs short, the
  yellow/blue split, the bonus/cursed markers, and the sorted theme list with
  display names.
- **Challenge picker** (`Challenges`). It does not repeat a challenge until
  every challenge has been used.
- **Start-up phrase lists** (`Catalogs`). The challenge texts and the cursed
  words that the registry builds from the word bank.

Every random draw is an input:

- a boolean for each `random.random() < p` roll;
- an index for each `random.choice`;
- a permutation for each `random.shuffle`;
- four alphabet indices for `random.choices(..., k=4)`.

Each pure computation is a function whose properties are lemmas. Each
operation that changes state is a method on a class with the source's fields:

- `GameService.games`;
- `Game.state`, `currentTeam`, `currentRound`, `currentRoundData`,
  `challengeCount` and `cursedCount`;
- `Team.position` and `Team.currentPlayerIndex`;
- `RoundData.playerHits` and `RoundData.started`;
- `WordService.usedWords`;
- `ChallengeService.usedChallenges`.

Each method's postcondition ties the new state to specification functions
(`Deal`, `PoolAfterDeal`, `SelectKind`, `MoveForward`, `CardBonusHits`,
`Choices`, `CursedWordList`, ...), and lemmas state the properties of those
functions. `Scenarios` exercises the registry as a client. Its walk-throughs
are proved from the operations' contracts alone.

Behaviours kept as the code has them:

- **Case of the identifier.**
  - `get_game` upper-cases the identifier, but `delete_game` looks up the key
    exactly as given (`Scenarios.DeleteLowerCase`).
  - `prepare_round` passes the caller's spelling of the identifier, not the
    upper-cased key, to the word service as the pool key.
- **No guard on the round kind or the phase.**
  - The resolutions check neither the kind of the round in flight nor whether
    the match is finished (`Scenarios.ResolveAfterFinish`).
  - `start_game` also moves a finished match back to playing.
  - The code does not make `finished` terminal: nothing checks the state, and
    the model does the same.
- **Bonus counting.** The bonus counts the card words that are flagged bonus
  and whose text was confirmed. It does not count confirmed words that match
  a bonus word. `hits` is the length of the confirmed list, repeats included.
- **Winner test.** The turn passes when `not winner` holds. A team with an
  empty name that reaches the finish therefore still passes the turn
  (`Games.Truthy`).
- **Duplicate words.** A word listed by two requested themes can be a
  candidate twice.
- **Normal rounds are never cursed.** `prepare_round` passes
  `cursed_chance=0`, so no word of a normal card is ever cursed
  (`Words.DealUncursed`).

## Model

| member | source | states |
|---|---|---|
| Common.UpperIsUpperCase | backend/services/game_service.py:131-132 | `upper()` yields an upper-case string, and it is the identity exactly on strings with no lower-case letter |
| Common.AdvanceByCycles | backend/models/game.py:33-36 | after k turns of a team its player index is (i + k) mod n, so after n turns the same player is up again |
| GameModel.Team.constructor | backend/models/game.py:20-25 | a team starts on square 0 with its first player up, keeping the given name and players |
| GameModel.Team.CurrentPlayer | backend/models/game.py:27-31 | None exactly for an empty team; otherwise a player of the team, the one at the index while the team is valid |
| GameModel.Team.NextPlayer | backend/models/game.py:33-36 | the index becomes (index + 1) mod n for a non-empty team and is unchanged for an empty one; the index stays in range |
| GameModel.RoundData.constructor | backend/models/game.py:59-69 | a round keeps its number, team, card and kind, starts with no hits and is not started |
| GameModel.Game.constructor | backend/models/game.py:109-123 | a fresh match is waiting, team 1 is up, round 0, no round in flight, both counters 0 |
| GameModel.Game.CurrentTeam | backend/models/game.py:130-131 | team 1 exactly when the pointer is 1, otherwise team 2 |
| GameModel.Game.OtherTeam | backend/models/game.py:133-134 | one of the two teams, and never the current one |
| GameModel.Game.CanHaveCursed | backend/models/game.py:142-144 | holds exactly when one more cursed round stays within the cap |
| GameModel.Game.CanHaveChallenge | backend/models/game.py:146-148 | holds exactly when one more challenge stays within the cap |
| GameModel.Game.AdvanceTurn | backend/models/game.py:136-140 | the active team's next player is up and the other team becomes active; the waiting team's index is unchanged; the match stays valid |
| GameModel.UpperLowerId | backend/services/game_service.py:131-132 | an identifier typed in lower case upper-cases back to itself |
| GameModel.GenerateId | backend/models/game.py:126-128 | the drawn identifier has four characters over A-Z and 0-9 and is already upper case |
| TeamModel.Team.constructor | backend/models/team.py:9-15 | a team starts on square 0 with its first player up |
| TeamModel.Team.CurrentPlayer | backend/models/team.py:17-24 | None exactly for an empty team; otherwise the player at the index together with that index |
| TeamModel.Team.AdvancePlayer | backend/models/team.py:26-30 | the index becomes (index + 1) mod n for a non-empty team (wrapping to 0 from the last player) and is unchanged for an empty one; it lands in range and no other field changes |
| Themes.SpaceUnderscoresAt | backend/services/word_service.py:147 | the underscore replacement turns every `_` into a space and keeps every other character |
| Themes.TitleFromAt | backend/services/word_service.py:147 | title-casing upper-cases each letter that opens a word, lower-cases the other letters and copies everything else |
| Themes.TitleAt | backend/services/word_service.py:147 | the same, character by character, for a whole string |
| Themes.TitleOfSpaced | backend/services/word_service.py:147 | a title-cased, spaced identifier has no underscore, the identifier's length and a capital at the start of every word |
| Themes.FormatThemeNameFacts | backend/services/word_service.py:127-147 | a mapped identifier is shown under its fixed name; any other gets a name of the same length with no underscore and a capital at the start of every word |
| Themes.InsertByName | backend/services/word_service.py:124 | insertion adds exactly the new entry to the list's multiset |
| Themes.InsertByNameSorted | backend/services/word_service.py:124 | insertion keeps a name-sorted list sorted |
| Themes.SortByName | backend/services/word_service.py:124 | the result is sorted by display name and is a permutation of the input |
| Themes.LexTotal | backend/services/word_service.py:124 | the string ordering used by the sort is total |
| Words.Lookup | backend/services/word_service.py:188-189 | a theme's words are found exactly when the bank has a theme with that id |
| Words.FromWordsMembership | backend/services/word_service.py:189-197 | a word of one theme is collected exactly when its level is allowed and its text is unused |
| Words.CandidatesMembership | backend/services/word_service.py:186-197 | a candidate is exactly an unused word that a requested theme lists at an allowed level |
| Words.Permute | backend/services/word_service.py:225 | the shuffle is a permutation of the candidates: the same elements, each as often as before (equal multisets), in the order the injected permutation names |
| Words.Selection | backend/services/word_service.py:225-226 | the selection has exactly 2·wordsPerSide words |
| Words.MarkAt | backend/services/word_service.py:247-277 | each word keeps text, level and place; the bonus goes to the first word whose roll succeeded; the cursed marker goes to the first word without the bonus whose cursed roll succeeded |
| Words.MarkWellMarked | backend/services/word_service.py:247-277 | a marked side has at most one bonus, at most one cursed word and never both on one word; with every cursed roll failing there is no cursed word |
| Words.DealFails | backend/services/word_service.py:199-222 | a deal fails exactly when both the unused and then all matching candidates are too few, and then the pool is empty |
| Words.DealShape | backend/services/word_service.py:225-240 | a dealt card has wordsPerSide words per side; yellow is the first half of the selection and blue the second; each side is well marked |
| Words.DealUncursed | backend/services/game_service.py:193-203 | with every cursed roll failing, as in the cards a round asks for, no dealt word is cursed |
| Words.DealTexts | backend/services/word_service.py:225-240 | the texts on a dealt card are exactly the selected texts |
| Words.SelectionFromAvailable | backend/services/word_service.py:225-226 | every selected word is the candidate the shuffle names at that place, and the selection takes no candidate more often than the list holds it (its multiset is contained in the candidates') |
| Words.DealIsFresh | backend/services/word_service.py:186-230 | every dealt word comes from a requested theme at an allowed level; without a reset it was not in the pool; the pool afterwards holds every dealt text |
| Words.NoRepeatBeforeReset | backend/services/word_service.py:186-230 | two deals in a row to one match share no word unless the second one resets the pool |
| Words.ListedThemesMembership | backend/services/word_service.py:109-121 | a theme is listed exactly when it is in the bank and is not the challenge bank, under its display name and word count |
| Words.WordService.constructor | backend/services/word_service.py:12-15 | the service starts over the loaded bank with no pools |
| Words.WordService.GetAvailableThemes | backend/services/word_service.py:109-125 | the list is sorted by display name, is a permutation of the listed themes and contains no challenge theme |
| Words.WordService.InitGamePool | backend/services/word_service.py:159-161 | the match's pool becomes empty, replacing any pool it had, and no other pool changes |
| Words.WordService.ClearGamePool | backend/services/word_service.py:163-166 | the match's pool is dropped, and nothing changes when it had none |
| Words.WordService.CollectAvailable | backend/services/word_service.py:186-197 | the collecting loops build exactly the candidate list |
| Words.WordService.ApplySpecialWords | backend/services/word_service.py:247-277 | the flag-carrying loop computes exactly the marking that `Mark` specifies |
| Words.WordService.RecordDealt | backend/services/word_service.py:229-230 | the marking loop adds exactly the selected texts to the match's pool |
| Words.WordService.AvailableFor | backend/services/word_service.py:181-217 | the candidates after at most one reset, with the pool reset exactly when the unused candidates are too few |
| Words.WordService.GetCardWords | backend/services/word_service.py:168-245 | the card is `Deal` of the old pool and the draw, and the pool becomes `PoolAfterDeal`; no other match's pool changes |
| Challenges.UnusedMembership | backend/services/challenge_service.py:47-48 | a challenge is unused exactly when it is listed and not in the used set |
| Challenges.AllUsed | backend/services/challenge_service.py:47-53 | the unused list is empty exactly when every challenge has been used |
| Challenges.UnusedShrinks | backend/services/challenge_service.py:47-56 | marking an unused challenge as used shortens the unused list |
| Challenges.UnusedNotLonger | backend/services/challenge_service.py:47-56 | adding to the used set never lengthens the unused list |
| Challenges.ChallengeService.constructor | backend/services/challenge_service.py:11-43 | the picker starts with the thirty built-in challenges and nothing used |
| Challenges.ChallengeService.GetRandomChallenge | backend/services/challenge_service.py:45-58 | the pick is a listed challenge, is the chosen entry of the unused list (or of the whole list once all are used), and is then marked used; while some challenge is unused the pick was unused and only it is added; otherwise the used set becomes just the pick; used stays within the list |
| Challenges.ChallengeService.Reset | backend/services/challenge_service.py:60-62 | nothing is used any more |
| Scoring.SelectKind | backend/services/game_service.py:156-165 | a challenge exactly when its cap allows one and its roll succeeds; cursed exactly when no challenge was drawn and the cursed cap allows one and its roll succeeds; normal exactly when neither |
| Scoring.CappedChallengeNeverDrawn | backend/services/game_service.py:157-159 | with the challenge cap reached no roll yields a challenge |
| Scoring.Clamp | backend/services/game_service.py:287 | a position is clamped into 0..30 and is unchanged inside it |
| Scoring.MoveForward | backend/services/game_service.py:287 | `min(30, position + moves)` never moves back, stays on the board and reaches 30 exactly when the sum does |
| Scoring.MoveBack | backend/services/game_service.py:329 | `max(0, position - steps)` never moves forward and stays on the board |
| Scoring.ChallengePosition | backend/services/game_service.py:322-329 | a completed challenge moves forward by 5 within the board; a failed one moves back by 2, never below 0 and never onto the finish |
| Scoring.CursedPosition | backend/services/game_service.py:365-372 | a guessed cursed word moves forward by 2 within the board; a missed one moves back by 5, never below 0 |
| Scoring.BonusHits | backend/services/game_service.py:275-280 | a side contributes at most one bonus hit per word |
| Scoring.NoBonusNoHits | backend/services/game_service.py:275-280 | a side without bonus words yields no bonus hit |
| Scoring.BonusHitsAtMostOne | backend/services/game_service.py:275-280 | a side with at most one bonus word yields at most one bonus hit |
| Scoring.BonusHitsAppend | backend/services/game_service.py:277 | the bonus hits of the joined sides are the sum of each side's |
| Scoring.CardBonusHitsBound | backend/services/game_service.py:275-280 | a well-marked card yields at most two bonus hits, and a round without a card yields none |
| Scoring.BonusHitsIgnoresOtherTexts | backend/services/game_service.py:279 | confirming a text that no bonus word carries adds no bonus hit |
| Scoring.UnconfirmedBonusNoHits | backend/services/game_service.py:275-280 | a side whose bonus words all went unconfirmed yields no bonus hit |
| Scoring.ConfirmedBonusCounts | backend/services/game_service.py:275-280 | on a side with at most one bonus word, confirming that word's text yields exactly one bonus hit |
| Scoring.AddHit | backend/services/game_service.py:246-248 | the earlier hits keep their order; a word already there leaves the list as it was; a new word is appended at the end; the list stays duplicate-free |
| Scoring.AddHitIdempotent | backend/services/game_service.py:246-248 | registering the same word twice is the same as once |
| Catalogs.LoadChallenges | backend/services/game_service.py:17-37 | the challenge theme's texts in bank order when the bank has one, the fallback list otherwise, and never empty for a loaded bank |
| Catalogs.HardWordsOfMembership | backend/services/game_service.py:48-50 | a theme's hard words are exactly its words of level 4 or more |
| Catalogs.HardWordsMembership | backend/services/game_service.py:47-50 | the bank's hard words are exactly its words of level 4 or more |
| Catalogs.AddMissingFacts | backend/services/game_service.py:80-82 | adding the missing defaults keeps the prefix, adds exactly the absent ones and introduces no repeat |
| Catalogs.CursedWordListFacts | backend/services/game_service.py:39-84 | the cursed list starts with the hard words, contains every default phrase and nothing else, and is never empty |
| Catalogs.LoadCursedWords | backend/services/game_service.py:39-84 | the append loops build exactly the cursed list |
| Games.SettleTurn | backend/services/game_service.py:289-300 | the winner is the acting team exactly when it stands on the finish line, and then the match is finished; the turn passes unless the winner is truthy; the round is cleared; counters are kept |
| Games.NewMatch | backend/services/game_service.py:92-123 | the new match and both teams carry the request's values or their defaults, waiting, team 1 up, round 0, both counters 0 |
| Games.MoveAndSettle | backend/services/game_service.py:286-300 | the acting team lands on the given square, the other team stays, and the turn is settled |
| Games.GameService.constructor | backend/services/game_service.py:11-15 | an empty registry with the challenge list and the cursed list built from the bank |
| Games.GameService.GetGame | backend/services/game_service.py:131-132 | the match under the upper-cased identifier, and null exactly when there is none |
| Games.GameService.CurrentRoundOf | backend/services/game_service.py:265-267 | the round in flight of the match the identifier names, whenever that match exists; null when there is no such match or it has no round |
| Games.GameService.GetGameIgnoresCase | backend/services/game_service.py:131-132 | any spelling of an identifier finds the same match, and the lower-case spelling of a key finds its match |
| Games.GameService.LocalChange | backend/services/game_service.py:11-13 | the registry invariant survives a change confined to one match |
| Games.GameService.FreshRegistered | backend/services/game_service.py:125-126 | the registry invariant survives registering a fresh match with a pool |
| Games.GameService.Removed | backend/services/game_service.py:400-406 | the registry invariant survives dropping a match and its pool |
| Games.GameService.CreateGame | backend/services/game_service.py:86-129 | the new match is registered under the fresh identifier with an empty pool, carries the request's values or their defaults, and no other match changes |
| Games.GameService.StartGame | backend/services/game_service.py:137-146 | an existing match plays from round 0 with both counters cleared, keeping the positions, the turn and the round in flight; an unknown id gives null |
| Games.GameService.NewRound | backend/services/game_service.py:156-218 | the kind is `SelectKind`; a challenge or cursed round uses up one unit of its cap and carries the chosen phrase; a normal round carries the dealt card, and there is no round exactly when no card can be dealt |
| Games.GameService.PrepareRound | backend/services/game_service.py:148-225 | an unknown id gives null; otherwise the round counter rises by exactly one even when no card can be dealt, the new round is stored for the active team (or the old one kept when there is none), and the caps are respected |
| Games.GameService.PrepareOn | backend/services/game_service.py:154-220 | the same, for the match alone |
| Games.GameService.StartTimer | backend/services/game_service.py:227-238 | the round in flight is marked started, its hits kept; null without one |
| Games.GameService.RegisterHit | backend/services/game_service.py:240-249 | false exactly when there is no round in flight; otherwise the word is appended to the hits unless already there, and the round's started flag is kept |
| Games.GameService.EndRound | backend/services/game_service.py:251-261 | the hits of the round in flight, and none without one; nothing changes |
| Games.GameService.CountBonusHits | backend/services/game_service.py:275-280 | the counting loop computes the card's bonus hits |
| Games.GameService.ConfirmRound | backend/services/game_service.py:263-312 | without a round in flight nothing changes; otherwise the acting team moves forward by the confirmed count plus the bonus hits, capped at 30; the result reports them; the turn is settled |
| Games.GameService.ConfirmOn | backend/services/game_service.py:269-311 | the same, for the match alone |
| Games.GameService.ResolveChallenge | backend/services/game_service.py:314-355 | without a round in flight nothing changes; otherwise +5 capped at 30 or −2 floored at 0, the unclamped delta reported, and the turn settled |
| Games.GameService.ResolveCursed | backend/services/game_service.py:357-398 | without a round in flight nothing changes; otherwise +2 capped at 30 or −5 floored at 0, the unclamped delta reported, and the turn settled |
| Games.GameService.DeleteGame | backend/services/game_service.py:400-406 | true exactly when the identifier as given is a key, and then the match and its pool are removed; otherwise nothing changes |
| Scenarios.ChallengeWins | backend/services/game_service.py:322-335 | a team on square 28 that completes its challenge stops on 30, wins and finishes the match |
| Scenarios.CursedFromSquareOne | backend/services/game_service.py:369-382 | a team on square 1 that misses its cursed word falls to 0, nobody wins, and the turn passes |
| Scenarios.CappedChallenge | backend/services/game_service.py:157-159 | once the challenges are used up, a prepared round is never a challenge and the counter stays at the cap |
| Scenarios.ResolveAfterFinish | backend/services/game_service.py:314-342 | a finished match still moves its acting team and stays finished |
| Scenarios.DeleteLowerCase | backend/services/game_service.py:400-406 | the lower-case spelling finds a match through the lookup but deletes nothing |
| Scenarios.NewStartedMatch | backend/services/game_service.py:86-146 | a match created with the defaults and started is playing, team 1 is up, nobody has moved and no special round has been played |
| Scenarios.ConfirmWithBonus | backend/services/game_service.py:263-312 | a team on square 0 that confirms three words, the yellow bonus word among them, scores 3 hits and 1 bonus hit, moves to square 4, does not win and passes the turn |
| Scenarios.FirstChallenge | backend/services/game_service.py:148-355 | a first round that rolls a completed challenge puts team 1 on square 5 and hands the turn to team 2 |

## Left out

- Loading the word bank from JSON files and the built-in default bank
  (`load_word_banks`, `_create_default_bank`) are file I/O and constant data.
  The bank is a parameter. It is assumed well formed: unique theme ids and
  non-empty themes. Every word carries its level, so the
  `get('level', 1)` default is not modelled.
- `get_available_levels` returns a constant table, and `get_all_games` is the
  plain list of the registry's values.
- The probabilities (`bonus_chance`, `challenge_chance`, `cursed_chance`) are
  floats. Each roll against them is an injected boolean, so the model does
  not depend on their values. Consequently `Config` holds only the integer
  settings.
- The random shuffle, choices and rolls are inputs. The draws must fit:
  - the shuffle must be a permutation of the candidates;
  - there must be one roll per word;
  - each choice must be an index into its list.
- The identifier regeneration loop of `create_game` is not modelled. It ends
  only with probability one. `CreateGame` takes the draw of the loop's last
  iteration and requires that it is not a key yet.
- `Games.GameService.CreateGame`: a request value given explicitly as `None`
  is taken as absent, so it gets the default.
- `words_per_side` is a natural number. A negative value from a request is
  not modelled.
- `Common.Upper` and `Common.Lower`: the case mappings cover ASCII letters
  only. Python's `str.upper`, `str.lower` and `str.title` also map other
  Unicode letters.
- `Themes.Title` and `Themes.FormatThemeName`: only ASCII letters count as
  letters, so a non-ASCII letter ends a word. A generated theme name such as
  "ação" becomes "AçãO" in the model, where Python's `str.title` gives "Ação".
  Names in the fixed map are not affected.
- The dictionaries returned to clients (`to_dict`, the `game` entry of a
  result), `print` logging and the `created_at` timestamp are not modelled.
- The `completed` and `guessed` keys of the special-round results are not
  modelled. They repeat the caller's argument.
- `GameModel.Team.constructor` and `TeamModel.Team.constructor`: the
  dataclasses also accept optional `position` and `current_player_index`
  arguments. The engine never passes them, so every team starts on square 0
  with its first player up.
- `register_hit` takes an `is_bonus` argument and ignores it. The model does
  not take it.
- The module-level singleton instances (`word_service`, `game_service`) are
  not modelled as globals. The word service is a field of the registry, and
  the challenge and cursed lists are built from its bank at construction.
- `Words.WordService.GetCardWords`: `prepare_round` passes the identifier as
  the caller spelled it. Pools keyed by another spelling of the same match
  are modelled, but no property relates them to the match's own pool.
- Sorting: `Themes.SortByName` is an insertion sort standing in for Python's
  `list.sort`. Only sortedness and permutation are stated, not the stability
  of equal names.
